/** Submissions and settlements over time: a week is settled only after its last submission. Submitting and
    settling are atomic steps under one clock that never runs backwards. */
module Season {
  import opened Text
  import opened Lifecycle
  import opened Settlement
  import Board

  /** The score table and the settlement rows, week by week. */
  datatype World = World(clock: int, boards: map<int, set<Board.Score>>, books: map<int, Books>)

  function BoardOf(w: World, period: int): set<Board.Score> {
    if period in w.boards then w.boards[period] else {}
  }

  function BooksOf(w: World, period: int): Books {
    if period in w.books then w.books[period] else Books(None, map[], map[])
  }

  /** A score is entered for the week in which its session ended. `Stops` is a settlement whose loop was cut off
      after some ranks and whose rows were kept. */
  datatype Event =
    | Submits(now: int, score: Board.Score)
    | Settles(now: int, period: int, facts: SettleFacts)
    | Stops(now: int, period: int, facts: SettleFacts, reached: nat)

  ghost predicate Accepts(w: World, now: int, score: Board.Score) {
    && now < PeriodStart(score.completedUs) + WEEK_US && Board.Storable(score.points)
    && Board.ValidBoard(BoardOf(w, PeriodStart(score.completedUs)) + {score})
  }

  ghost function Entered(w: World, now: int, score: Board.Score): World {
    if Accepts(w, now, score)
    then w.(boards := w.boards[PeriodStart(score.completedUs) := BoardOf(w, PeriodStart(score.completedUs)) + {score}])
    else w
  }

  /** The scores that a settlement of the week ranks; in every run all boards satisfy the table's constraints. */
  ghost function ListOf(w: World, period: int): seq<Board.Score> {
    if Board.ValidBoard(BoardOf(w, period)) then Board.SettlementScores(BoardOf(w, period)) else []
  }

  function Stopped(books: Books, facts: SettleFacts, period: int, now: int, scores: seq<Board.Score>,
                   reached: nat): Books {
    if Verdict(books.run, facts, period, now).Some? || reached > |scores| then books
    else
      var tiers := TiersInForce(books.run, facts).value;
      match PayFirst(tiers, scores, books.recipients, books.rewards, reached)
      case Stuck(_) => books
      case Pay(recipients, rewards) => Books(Some(RunRow(Some(tiers), None)), recipients, rewards)
  }

  ghost predicate Boards(w: World) {
    forall period :: Board.ValidBoard(BoardOf(w, period)) && Board.WithinBounds(BoardOf(w, period))
  }

  ghost function Apply(w: World, ev: Event): World {
    match ev
    case Submits(now, score) => Entered(w, now, score).(clock := now)
    case Settles(now, period, facts) =>
      w.(clock := now, books := w.books[period := Settling(BooksOf(w, period), facts, period, now, ListOf(w, period)).1])
    case Stops(now, period, facts, reached) =>
      w.(clock := now, books := w.books[period := Stopped(BooksOf(w, period), facts, period, now, ListOf(w, period), reached)])
  }

  // ---------- the invariant ----------

  /** A begun run is that of a closed week and keeps its tiers; its rows are part of what its board calls for, and once
      it is completed exactly that. */
  ghost predicate BooksInv(books: Books, scores: seq<Board.Score>, closed: bool) {
    && (books.run.None? ==> books.recipients == map[] && books.rewards == map[])
    && (books.run.Some? ==>
          && closed && books.run.value.tiers.Some?
          && Consistent(books.run.value.tiers.value, scores, books.recipients, books.rewards))
    && (IsSettled(books) ==>
          && ExactRecipients(books.run.value.tiers.value, scores, books.recipients)
          && ExactRewards(books.recipients, books.rewards))
  }

  ghost predicate PeriodInv(w: World, period: int) {
    BooksInv(BooksOf(w, period), ListOf(w, period), w.clock >= period + WEEK_US)
  }

  ghost predicate Inv(w: World) {
    Boards(w) && forall period :: PeriodInv(w, period)
  }

  lemma ClosesWithTime(books: Books, scores: seq<Board.Score>, before: bool, after: bool)
    requires BooksInv(books, scores, before) && (before ==> after)
    ensures BooksInv(books, scores, after)
  {
    hide Consistent, ExactRecipients, ExactRewards;
  }

  lemma BegunIsConsistent(books: Books, facts: SettleFacts, period: int, now: int, scores: seq<Board.Score>,
                          closed: bool)
    requires BooksInv(books, scores, closed) && Verdict(books.run, facts, period, now).None?
    ensures now >= period + WEEK_US && !IsSettled(books)
    ensures Consistent(TiersInForce(books.run, facts).value, scores, books.recipients, books.rewards)
  {
    if books.run.None? { NothingIsConsistent(TiersInForce(books.run, facts).value, scores); }
    hide Consistent;
  }

  lemma SettlingKeepsBooks(books: Books, facts: SettleFacts, period: int, now: int, scores: seq<Board.Score>,
                           closed: bool)
    requires DistinctIds(scores) && BooksInv(books, scores, closed) && (closed ==> now >= period + WEEK_US)
    ensures BooksInv(Settling(books, facts, period, now, scores).1, scores, now >= period + WEEK_US)
  {
    hide Consistent, ExactRecipients, ExactRewards, WellFormed, PayFirst, DistinctIds, Refusal, PaidByTiers;
    if Verdict(books.run, facts, period, now).None? {
      BegunIsConsistent(books, facts, period, now, scores, closed);
      SettlingIsExact(books, facts, period, now, scores);
      var books' := Settling(books, facts, period, now, scores).1;
      if books' != books {
        ExactIsConsistent(TiersInForce(books.run, facts).value, scores, books'.recipients, books'.rewards);
      }
    }
  }

  lemma ExactIsConsistent(tiers: seq<Tier>, scores: seq<Board.Score>, recipients: Recipients, rewards: Rewards)
    requires ExactRecipients(tiers, scores, recipients) && ExactRewards(recipients, rewards)
    ensures Consistent(tiers, scores, recipients, rewards)
  {
  }

  lemma StoppingKeepsBooks(books: Books, facts: SettleFacts, period: int, now: int, scores: seq<Board.Score>,
                           reached: nat, closed: bool)
    requires DistinctIds(scores) && BooksInv(books, scores, closed) && (closed ==> now >= period + WEEK_US)
    ensures BooksInv(Stopped(books, facts, period, now, scores, reached), scores, now >= period + WEEK_US)
  {
    hide Consistent, ExactRecipients, ExactRewards, WellFormedUpTo, PayFirst, DistinctIds, Refusal, DoneUpTo;
    if Verdict(books.run, facts, period, now).None? && reached <= |scores| {
      BegunIsConsistent(books, facts, period, now, scores, closed);
      LoopStaysConsistent(TiersInForce(books.run, facts).value, scores, books.recipients, books.rewards, reached);
    }
  }

  /** No call changes the rows of a completed run. */
  lemma CompletedStays(books: Books, facts: SettleFacts, period: int, now: int, scores: seq<Board.Score>,
                       reached: nat)
    requires IsSettled(books)
    ensures Settling(books, facts, period, now, scores).1 == books
    ensures Stopped(books, facts, period, now, scores, reached) == books
  {
    hide Refusal, PayFirst;
  }

  lemma BoardsStayValid(w: World, now: int, score: Board.Score)
    requires Boards(w)
    ensures Boards(Entered(w, now, score))
  {
    hide Board.ValidBoard, PeriodStart;
    var w' := Entered(w, now, score);
    forall period ensures Board.ValidBoard(BoardOf(w', period)) && Board.WithinBounds(BoardOf(w', period)) {
      assert Board.ValidBoard(BoardOf(w, period));
    }
  }

  /** A week whose run has begun takes no more scores. */
  lemma ClosedBoardStays(w: World, now: int, score: Board.Score, period: int)
    requires Boards(w) && PeriodInv(w, period) && w.clock <= now && BooksOf(w, period).run.Some?
    ensures BoardOf(Entered(w, now, score), period) == BoardOf(w, period)
  {
    hide Board.ValidBoard, PeriodStart, Consistent, ExactRecipients, ExactRewards;
  }

  lemma SubmitIsSafe(w: World, now: int, score: Board.Score)
    requires Inv(w) && w.clock <= now
    ensures Inv(Entered(w, now, score).(clock := now))
  {
    hide Board.ValidBoard, Board.WithinBounds, PeriodStart, Entered, BooksInv;
    BoardsStayValid(w, now, score);
    var w' := Entered(w, now, score).(clock := now);
    forall period ensures Board.ValidBoard(BoardOf(w', period)) && Board.WithinBounds(BoardOf(w', period)) {
      assert Board.ValidBoard(BoardOf(Entered(w, now, score), period));
    }
    forall period ensures PeriodInv(w', period) {
      assert PeriodInv(w, period);
      assert BooksOf(w', period) == BooksOf(w, period) by { EnteredKeepsBooks(w, now, score); }
      if BooksOf(w, period).run.Some? {
        ClosedBoardStays(w, now, score, period);
        ClosesWithTime(BooksOf(w, period), ListOf(w, period), w.clock >= period + WEEK_US, now >= period + WEEK_US);
      } else {
        NoRunIsFine(BooksOf(w, period), ListOf(w, period), ListOf(w', period), w.clock >= period + WEEK_US, now >= period + WEEK_US);
      }
    }
  }

  lemma EnteredKeepsBooks(w: World, now: int, score: Board.Score)
    ensures Entered(w, now, score).books == w.books
  {
  }

  lemma NoRunIsFine(books: Books, scores: seq<Board.Score>, scores': seq<Board.Score>, before: bool, after: bool)
    requires BooksInv(books, scores, before) && books.run.None?
    ensures BooksInv(books, scores', after)
  {
  }

  lemma StepIsSafe(w: World, ev: Event)
    requires Inv(w) && w.clock <= ev.now
    ensures Inv(Apply(w, ev))
  {
    if ev.Submits? {
      SubmitIsSafe(w, ev.now, ev.score);
    } else {
      hide Board.ValidBoard, Board.WithinBounds, BooksInv, Settling, Stopped, ListOf, PeriodStart;
      var w' := Apply(w, ev);
      forall period ensures Board.ValidBoard(BoardOf(w', period)) && Board.WithinBounds(BoardOf(w', period)) {
        assert Board.ValidBoard(BoardOf(w, period));
      }
      forall period ensures PeriodInv(w', period) {
        assert PeriodInv(w, period);
        SameList(w, w', period);
        if period == ev.period {
          BooksAreKept(w, ev);
        } else {
          ClosesWithTime(BooksOf(w, period), ListOf(w, period), w.clock >= period + WEEK_US, ev.now >= period + WEEK_US);
        }
      }
    }
  }

  lemma SameList(w: World, w': World, period: int)
    requires Boards(w) && w'.boards == w.boards
    ensures Board.ValidBoard(BoardOf(w', period)) && ListOf(w', period) == ListOf(w, period)
  {
    hide Board.ValidBoard;
    assert Board.ValidBoard(BoardOf(w, period));
  }

  lemma BooksAreKept(w: World, ev: Event)
    requires Boards(w) && !ev.Submits? && PeriodInv(w, ev.period) && w.clock <= ev.now
    ensures BooksInv(BooksOf(Apply(w, ev), ev.period), ListOf(w, ev.period), ev.now >= ev.period + WEEK_US)
  {
    hide BooksInv, Settling, Stopped;
    SettlementListIsDistinct(BoardOf(w, ev.period));
    var books, scores, closed := BooksOf(w, ev.period), ListOf(w, ev.period), w.clock >= ev.period + WEEK_US;
    match ev
    case Settles(now, period, facts) => SettlingKeepsBooks(books, facts, period, now, scores, closed);
    case Stops(now, period, facts, reached) => StoppingKeepsBooks(books, facts, period, now, scores, reached, closed);
  }

  // ---------- every run ----------

  ghost predicate InOrder(clock: int, events: seq<Event>) {
    && (events != [] ==> clock <= events[0].now)
    && forall i | 0 < i < |events| :: events[i - 1].now <= events[i].now
  }

  /** No scores, no settlements. */
  predicate Fresh(w: World) {
    w.boards == map[] && w.books == map[]
  }

  lemma FreshIsSafe(w: World)
    requires Fresh(w)
    ensures Inv(w)
  {
  }

  ghost function Run(w: World, events: seq<Event>): World
    decreases |events|
  {
    if events == [] then w else Run(Apply(w, events[0]), events[1..])
  }

  lemma {:induction false} RunIsSafe(w: World, events: seq<Event>)
    requires Inv(w) && InOrder(w.clock, events)
    ensures Inv(Run(w, events))
    decreases |events|
  {
    hide Inv, Settling, Stopped, Entered, ListOf;
    if events != [] {
      StepIsSafe(w, events[0]);
      RunIsSafe(Apply(w, events[0]), events[1..]);
    }
  }

  /** The completed run is exactly what the week's board and the run's tiers call for. */
  ghost predicate Right(w: World, period: int) {
    && IsSettled(BooksOf(w, period)) && BooksOf(w, period).run.value.tiers.Some?
    && var books, tiers := BooksOf(w, period), BooksOf(w, period).run.value.tiers.value;
    && PaidByTiers(tiers, ListOf(w, period), books.recipients, books.rewards)
    && Total(books.rewards) == Promised(tiers, |ListOf(w, period)|)
  }

  lemma CompletedIsRight(w: World, period: int)
    requires Inv(w) && IsSettled(BooksOf(w, period))
    ensures Right(w, period) && Board.ValidBoard(BoardOf(w, period)) && Board.WithinBounds(BoardOf(w, period))
  {
    hide Board.ValidBoard, ExactRecipients, ExactRewards, Consistent, Total, Promised, DistinctIds, PaidByTiers;
    assert PeriodInv(w, period);
    var books := BooksOf(w, period);
    SettlementListIsDistinct(BoardOf(w, period));
    TotalPaid(books.run.value.tiers.value, ListOf(w, period), books.recipients, books.rewards);
    ExactIsPaid(books.run.value.tiers.value, ListOf(w, period), books.recipients, books.rewards);
  }

  lemma StepLeavesSettled(w: World, ev: Event, period: int)
    requires Inv(w) && w.clock <= ev.now && IsSettled(BooksOf(w, period))
    ensures BooksOf(Apply(w, ev), period) == BooksOf(w, period) && BoardOf(Apply(w, ev), period) == BoardOf(w, period)
  {
    hide Board.ValidBoard, BooksInv, Settling, Stopped, ListOf, Entered, PeriodStart;
    assert PeriodInv(w, period);
    match ev
    case Submits(now, score) =>
      ClosedBoardStays(w, now, score, period);
      EnteredKeepsBooks(w, now, score);
    case Settles(now, other, facts) =>
      if other == period { CompletedStays(BooksOf(w, period), facts, period, now, ListOf(w, period), 0); }
    case Stops(now, other, facts, reached) =>
      if other == period { CompletedStays(BooksOf(w, period), facts, period, now, ListOf(w, period), reached); }
  }

  lemma {:induction false} RunLeavesSettled(w: World, events: seq<Event>, period: int)
    requires Inv(w) && InOrder(w.clock, events) && IsSettled(BooksOf(w, period))
    ensures BooksOf(Run(w, events), period) == BooksOf(w, period)
    ensures BoardOf(Run(w, events), period) == BoardOf(w, period)
    decreases |events|
  {
    hide Inv, Settling, Stopped, Entered, ListOf, BooksOf, BoardOf;
    if events != [] {
      StepIsSafe(w, events[0]);
      StepLeavesSettled(w, events[0], period);
      RunLeavesSettled(Apply(w, events[0]), events[1..], period);
    }
  }

  /** In every run, however often settlements were cut off, repeated or refused: a week once settled keeps its scores,
      recipients and rewards for ever, and they are exactly what its board calls for, to the total. */
  lemma SettledBoardsAreFinal(start: World, events: seq<Event>, more: seq<Event>, period: int)
    requires Fresh(start) && InOrder(start.clock, events) && InOrder(Run(start, events).clock, more)
    ensures var w := Run(start, events);
      var later := Run(w, more);
      IsSettled(BooksOf(w, period)) ==>
        && BooksOf(later, period) == BooksOf(w, period) && BoardOf(later, period) == BoardOf(w, period)
        && Board.ValidBoard(BoardOf(later, period)) && Board.WithinBounds(BoardOf(later, period)) && Right(later, period)
  {
    hide Inv, Run, Right, BooksOf, BoardOf, InOrder, Board.ValidBoard, Board.WithinBounds, Fresh;
    FreshIsSafe(start);
    RunIsSafe(start, events);
    var w := Run(start, events);
    if IsSettled(BooksOf(w, period)) {
      RunLeavesSettled(w, more, period);
      RunIsSafe(w, more);
      CompletedIsRight(Run(w, more), period);
    }
  }

  /** In every run, a settlement that passes the checks before the loop settles exactly if no rank on its list falls
      to a tier that cannot be paid, and else raises what the first such rank raises: rows that earlier attempts left never stand in its way. */
  lemma SettlingSucceedsIff(start: World, events: seq<Event>, now: int, period: int, facts: SettleFacts)
    requires Fresh(start) && InOrder(start.clock, events)
    ensures var w := Run(start, events);
      var books, scores := BooksOf(w, period), ListOf(w, period);
      Verdict(books.run, facts, period, now).None? ==>
        var tiers, reply := TiersInForce(books.run, facts).value, Settling(books, facts, period, now, scores).0;
        if WellFormed(tiers, scores) then reply == SettledNow
        else reply.Unsettled? && Fails(tiers, |scores|, reply.error)
  {
    hide Run, InOrder, Board.ValidBoard, Fresh, Settling, WellFormed, Consistent, ExactRecipients, ExactRewards,
         DistinctIds, Refusal, PaidByTiers, Fails;
    FreshIsSafe(start);
    RunIsSafe(start, events);
    var w := Run(start, events);
    assert PeriodInv(w, period);
    SettlementListIsDistinct(BoardOf(w, period));
    if Verdict(BooksOf(w, period).run, facts, period, now).None? {
      BegunIsConsistent(BooksOf(w, period), facts, period, now, ListOf(w, period), w.clock >= period + WEEK_US);
      SettlingIsExact(BooksOf(w, period), facts, period, now, ListOf(w, period));
    }
  }
}
