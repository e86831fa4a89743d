/** A submission checks the clock and commits later, and does not take the lock of the game that a settlement holds.
    Here both are taken apart: a settled week can still gain scores, exactly those that were checked in time and
    committed after the settlement had read its list. Nothing is assumed of the clocks of different calls. */
module LateScores {
  import opened Text
  import opened Lifecycle
  import opened Settlement
  import Board

  /** A settlement under way, with the list that it read. */
  datatype Attempt = Attempt(period: int, facts: SettleFacts, now: int, list: seq<Board.Score>)

  /** `pending` are the scores of submissions that have passed the clock check; `open` is the settlement that holds
      the lock of the game. */
  datatype World = World(boards: map<int, set<Board.Score>>, books: map<int, Books>, pending: set<Board.Score>,
                         open: Option<Attempt>)

  /** `Ends` commits the settlement or refuses it, `Aborts` rolls it back. A submission that never commits is one
      without its second event. */
  datatype Event =
    | Checks(now: int, score: Board.Score)
    | Commits(score: Board.Score)
    | Reads(now: int, period: int, facts: SettleFacts)
    | Ends
    | Aborts

  function WeekOf(score: Board.Score): int {
    PeriodStart(score.completedUs)
  }

  function BoardOf(w: World, period: int): set<Board.Score> {
    if period in w.boards then w.boards[period] else {}
  }

  function BooksOf(w: World, period: int): Books {
    if period in w.books then w.books[period] else Books(None, map[], map[])
  }

  ghost function ListOf(w: World, period: int): seq<Board.Score> {
    if Board.ValidBoard(BoardOf(w, period)) then Board.SettlementScores(BoardOf(w, period)) else []
  }

  /** The insert meets the constraints of the table. */
  ghost predicate Takes(w: World, score: Board.Score) {
    Board.Storable(score.points) && Board.ValidBoard(BoardOf(w, WeekOf(score)) + {score})
  }

  ghost function Committed(w: World, score: Board.Score): World {
    if score !in w.pending then w
    else if !Takes(w, score) then w.(pending := w.pending - {score})
    else w.(pending := w.pending - {score}, boards := w.boards[WeekOf(score) := BoardOf(w, WeekOf(score)) + {score}])
  }

  function Ended(w: World): World {
    match w.open
    case None => w
    case Some(a) =>
      w.(books := w.books[a.period := Settling(BooksOf(w, a.period), a.facts, a.period, a.now, a.list).1], open := None)
  }

  /** A settlement waits while another one holds the lock. */
  ghost function Next(w: World, ev: Event): World {
    match ev
    case Checks(now, score) => if now < WeekOf(score) + WEEK_US then w.(pending := w.pending + {score}) else w
    case Commits(score) => Committed(w, score)
    case Reads(now, period, facts) =>
      if w.open.None? then w.(open := Some(Attempt(period, facts, now, ListOf(w, period)))) else w
    case Ends => Ended(w)
    case Aborts => w.(open := None)
  }

  /** The world after the first `k` events. */
  ghost function At(start: World, events: seq<Event>, k: nat): World
    requires k <= |events|
  {
    if k == 0 then start else Next(At(start, events, k - 1), events[k - 1])
  }

  predicate Fresh(w: World) {
    w == World(map[], map[], {}, None)
  }

  // ---------- invariants ----------

  ghost predicate Inv(w: World) {
    && (forall period :: Board.ValidBoard(BoardOf(w, period)) && Board.WithinBounds(BoardOf(w, period)))
    && (forall period :: IsSettled(BooksOf(w, period)) || BooksOf(w, period) == Books(None, map[], map[]))
  }

  lemma EndedIsAllOrNothing(books: Books, a: Attempt)
    ensures var books' := Settling(books, a.facts, a.period, a.now, a.list).1; books' == books || IsSettled(books')
    ensures IsSettled(books) ==> Settling(books, a.facts, a.period, a.now, a.list).1 == books
  {
    hide PayFirst, Refusal;
  }

  lemma StepIsSafe(w: World, ev: Event)
    requires Inv(w)
    ensures Inv(Next(w, ev))
  {
    hide Board.ValidBoard, Settling, IsSettled, PeriodStart, ListOf;
    var w' := Next(w, ev);
    forall period ensures Board.ValidBoard(BoardOf(w', period)) && Board.WithinBounds(BoardOf(w', period)) {
      assert Board.ValidBoard(BoardOf(w, period));
    }
    forall period ensures IsSettled(BooksOf(w', period)) || BooksOf(w', period) == Books(None, map[], map[]) {
      assert IsSettled(BooksOf(w, period)) || BooksOf(w, period) == Books(None, map[], map[]);
      if ev.Ends? && w.open.Some? { EndedIsAllOrNothing(BooksOf(w, period), w.open.value); }
    }
  }

  lemma EmptyBoardIsValid()
    ensures Board.ValidBoard({})
  {
  }

  lemma {:induction false} RunIsSafe(start: World, events: seq<Event>, k: nat)
    requires Fresh(start) && k <= |events|
    ensures Inv(At(start, events, k))
  {
    if k == 0 {
      EmptyBoardIsValid();
    } else {
      hide Inv, Next;
      RunIsSafe(start, events, k - 1);
      StepIsSafe(At(start, events, k - 1), events[k - 1]);
    }
  }

  lemma StepKeeps(w: World, ev: Event, period: int)
    ensures BoardOf(w, period) <= BoardOf(Next(w, ev), period)
    ensures IsSettled(BooksOf(w, period)) ==> BooksOf(Next(w, ev), period) == BooksOf(w, period)
  {
    hide Takes, Settling, PeriodStart, ListOf, IsSettled;
    if ev.Ends? && w.open.Some? { EndedIsAllOrNothing(BooksOf(w, w.open.value.period), w.open.value); }
  }

  /** Boards only grow, and a completed run is never touched again. */
  lemma {:induction false} RunKeeps(start: World, events: seq<Event>, m: nat, n: nat, period: int)
    requires m <= n <= |events|
    ensures BoardOf(At(start, events, m), period) <= BoardOf(At(start, events, n), period)
    ensures IsSettled(BooksOf(At(start, events, m), period)) ==>
      BooksOf(At(start, events, n), period) == BooksOf(At(start, events, m), period)
    decreases n
  {
    hide Next, BoardOf, BooksOf, IsSettled;
    if m < n {
      RunKeeps(start, events, m, n - 1, period);
      StepKeeps(At(start, events, n - 1), events[n - 1], period);
    }
  }

  // ---------- scores that come late ----------

  /** The submission of the score passed the clock check at step `c`. */
  predicate Checked(events: seq<Event>, c: nat, score: Board.Score) {
    c < |events| && events[c].Checks? && events[c].score == score && events[c].now < WeekOf(score) + WEEK_US
  }

  /** The score is new on the board after step `k`. */
  ghost predicate Enters(start: World, events: seq<Event>, k: nat, score: Board.Score) {
    && k < |events| && events[k] == Commits(score)
    && score !in BoardOf(At(start, events, k), WeekOf(score))
    && score in BoardOf(At(start, events, k + 1), WeekOf(score))
  }

  /** Checked before the week's end and committed after step `i`. */
  ghost predicate Late(start: World, events: seq<Event>, i: nat, score: Board.Score) {
    exists c: nat, k: nat :: c < k && i < k && Checked(events, c, score) && Enters(start, events, k, score)
  }

  lemma {:induction false} PendingWasChecked(start: World, events: seq<Event>, k: nat, score: Board.Score)
    requires Fresh(start) && k <= |events| && score in At(start, events, k).pending
    ensures exists c: nat :: c < k && Checked(events, c, score)
  {
    hide Takes, Settling, PeriodStart, ListOf;
    if score in At(start, events, k - 1).pending {
      PendingWasChecked(start, events, k - 1, score);
      var c: nat :| c < k - 1 && Checked(events, c, score);
    } else {
      assert Checked(events, k - 1, score);
    }
  }

  /** A score that a step brings to a board was pending. */
  lemma EnteringStep(w: World, ev: Event, period: int, score: Board.Score)
    requires score !in BoardOf(w, period) && score in BoardOf(Next(w, ev), period)
    ensures ev == Commits(score) && score in w.pending && period == WeekOf(score)
  {
    hide Takes, Settling, PeriodStart, ListOf;
  }

  lemma {:induction false} EntersBetween(start: World, events: seq<Event>, m: nat, n: nat, period: int,
                                         score: Board.Score) returns (k: nat)
    requires Fresh(start) && m <= n <= |events|
    requires score !in BoardOf(At(start, events, m), period) && score in BoardOf(At(start, events, n), period)
    ensures m <= k < n && period == WeekOf(score) && Enters(start, events, k, score)
    ensures exists c: nat :: c < k && Checked(events, c, score)
    decreases n
  {
    hide Next, BoardOf, WeekOf, Fresh, Checked;
    if score in BoardOf(At(start, events, n - 1), period) {
      k := EntersBetween(start, events, m, n - 1, period, score);
    } else {
      k := n - 1;
      EnteringStep(At(start, events, n - 1), events[n - 1], period, score);
      PendingWasChecked(start, events, n - 1, score);
    }
  }

  /** What the final board has beyond the board at step `i` is exactly what came late. */
  lemma BeyondIsLate(start: World, events: seq<Event>, i: nat, period: int, score: Board.Score)
    requires Fresh(start) && i < |events| && events[i].Reads?
    ensures score in BoardOf(At(start, events, |events|), period) && score !in BoardOf(At(start, events, i), period)
       <==> WeekOf(score) == period && Late(start, events, i, score)
  {
    hide At, BoardOf, WeekOf, Fresh, Checked;
    var n := |events|;
    if score in BoardOf(At(start, events, n), period) && score !in BoardOf(At(start, events, i), period) {
      var k := EntersBetween(start, events, i, n, period, score);
      var c: nat :| c < k && Checked(events, c, score);
    }
    if WeekOf(score) == period && Late(start, events, i, score) {
      var c: nat, k: nat :| c < k && i < k && Checked(events, c, score) && Enters(start, events, k, score);
      RunKeeps(start, events, i, k, period);
      RunKeeps(start, events, k + 1, n, period);
    }
  }

  // ---------- the list of a settlement ----------

  /** Between steps `i` and `k` one settlement holds the lock. */
  ghost predicate Holds(start: World, events: seq<Event>, i: nat, k: nat) {
    && i < k <= |events| && events[i].Reads? && At(start, events, i).open.None?
    && forall m | i < m < k :: !events[m].Ends? && !events[m].Aborts?
  }

  lemma {:induction false} HeldList(start: World, events: seq<Event>, i: nat, k: nat)
    requires Holds(start, events, i, k)
    ensures var r := events[i];
      At(start, events, k).open == Some(Attempt(r.period, r.facts, r.now, ListOf(At(start, events, i), r.period)))
    decreases k
  {
    hide Takes, Settling, PeriodStart, ListOf;
    if k > i + 1 { HeldList(start, events, i, k - 1); }
  }

  lemma {:induction false} OpenIsHeld(start: World, events: seq<Event>, k: nat) returns (i: nat)
    requires Fresh(start) && k <= |events| && At(start, events, k).open.Some?
    ensures Holds(start, events, i, k)
  {
    hide Takes, Settling, PeriodStart, ListOf;
    if At(start, events, k - 1).open.Some? {
      i := OpenIsHeld(start, events, k - 1);
    } else {
      i := k - 1;
    }
  }

  /** The settlement that reads at step `i` completes the week at step `j`. */
  ghost predicate Settles(start: World, events: seq<Event>, i: nat, j: nat, period: int) {
    && j < |events| && Holds(start, events, i, j) && events[j].Ends? && events[i].period == period
    && !IsSettled(BooksOf(At(start, events, j), period)) && IsSettled(BooksOf(At(start, events, j + 1), period))
  }

  lemma CompletingStep(w: World, ev: Event, period: int)
    requires !IsSettled(BooksOf(w, period)) && IsSettled(BooksOf(Next(w, ev), period))
    ensures ev.Ends? && w.open.Some? && w.open.value.period == period
  {
    hide Takes, Settling, PeriodStart, ListOf;
  }

  lemma {:induction false} CompletedWasSettled(start: World, events: seq<Event>, n: nat, period: int)
    returns (i: nat, j: nat)
    requires Fresh(start) && n <= |events| && IsSettled(BooksOf(At(start, events, n), period))
    ensures j < n && Settles(start, events, i, j, period)
  {
    hide Next, BooksOf, Holds;
    if n == 0 {
      assert IsSettled(BooksOf(start, period));
      FreshIsOpen(start, period);
    } else if IsSettled(BooksOf(At(start, events, n - 1), period)) {
      i, j := CompletedWasSettled(start, events, n - 1, period);
    } else {
      j := n - 1;
      CompletingStep(At(start, events, j), events[j], period);
      i := OpenIsHeld(start, events, j);
      HeldList(start, events, i, j);
    }
  }

  lemma FreshIsOpen(start: World, period: int)
    requires Fresh(start)
    ensures !IsSettled(BooksOf(start, period))
  {
  }

  /** A completed run with exactly what its tiers call for on a list. */
  ghost predicate RightFor(books: Books, list: seq<Board.Score>) {
    && IsSettled(books) && books.run.value.tiers.Some?
    && var tiers := books.run.value.tiers.value;
    && PaidByTiers(tiers, list, books.recipients, books.rewards)
    && Total(books.rewards) == Promised(tiers, |list|)
  }

  lemma SettlesRight(start: World, events: seq<Event>, i: nat, j: nat, period: int)
    requires Fresh(start) && Settles(start, events, i, j, period)
    ensures events[i].now >= period + WEEK_US
    ensures RightFor(BooksOf(At(start, events, j + 1), period), ListOf(At(start, events, i), period))
  {
    hide Fresh, At, Refusal, PayFirst, WellFormed, ExactRecipients, ExactRewards, Total, Promised, DistinctIds, Fails,
         Board.ValidBoard;
    RunIsSafe(start, events, i);
    RunIsSafe(start, events, j);
    HeldList(start, events, i, j);
    var r, list := events[i], ListOf(At(start, events, i), period);
    SettlementListIsDistinct(BoardOf(At(start, events, i), period));
    LastStep(start, events, j);
    RightIfCompleted(r.facts, period, r.now, list);
  }

  lemma LastStep(start: World, events: seq<Event>, k: nat)
    requires k < |events|
    ensures At(start, events, k + 1) == Next(At(start, events, k), events[k])
  {
  }

  lemma RightIfCompleted(facts: SettleFacts, period: int, now: int, list: seq<Board.Score>)
    requires DistinctIds(list)
    ensures var books := Settling(Books(None, map[], map[]), facts, period, now, list).1;
      IsSettled(books) ==> now >= period + WEEK_US && RightFor(books, list)
  {
    var none: Books := Books(None, map[], map[]);
    if Verdict(None, facts, period, now).None? {
      var tiers := TiersInForce(None, facts).value;
      NothingIsConsistent(tiers, list);
      SettlingIsExact(none, facts, period, now, list);
      var books := Settling(none, facts, period, now, list).1;
      hide Settling, Refusal, WellFormed, ExactRecipients, ExactRewards, Total, Promised, DistinctIds, Fails,
           Consistent, PaidByTiers;
      if IsSettled(books) { TotalPaid(tiers, list, books.recipients, books.rewards); }
    }
  }

  // ---------- the main statement ----------

  /** The week was settled from the list read at step `i`, and that list lacks exactly the late scores. */
  ghost predicate SettledFrom(start: World, events: seq<Event>, i: nat, j: nat, period: int) {
    && Settles(start, events, i, j, period) && events[i].now >= period + WEEK_US
    && var read, end := At(start, events, i), At(start, events, |events|);
    && BooksOf(end, period) == BooksOf(At(start, events, j + 1), period)
    && RightFor(BooksOf(end, period), ListOf(read, period))
    && BoardOf(read, period) <= BoardOf(end, period) && Board.WithinBounds(BoardOf(end, period))
    && forall score :: score in BoardOf(end, period) && score !in BoardOf(read, period)
                  <==> WeekOf(score) == period && Late(start, events, i, score)
  }

  /** In every run, a settled week is for ever what its tiers call for on the board that its settlement read. A score on
      the final board is missing there exactly if its submission was checked before the week's end and committed after
      that read. */
  lemma SettledMissesTheLate(start: World, events: seq<Event>, period: int)
    requires Fresh(start)
    ensures IsSettled(BooksOf(At(start, events, |events|), period)) ==>
      exists i: nat, j: nat :: SettledFrom(start, events, i, j, period)
  {
    hide Fresh, At, Settles, RightFor, Late, BoardOf, BooksOf, ListOf, IsSettled, WeekOf, Board.WithinBounds,
         Board.ValidBoard;
    var n := |events|;
    if IsSettled(BooksOf(At(start, events, n), period)) {
      var i, j := CompletedWasSettled(start, events, n, period);
      SettlesRight(start, events, i, j, period);
      SettlesInRange(start, events, i, j, period);
      RunKeeps(start, events, j + 1, n, period);
      RunKeeps(start, events, i, n, period);
      RunIsSafe(start, events, n);
      forall score ensures
        score in BoardOf(At(start, events, n), period) && score !in BoardOf(At(start, events, i), period)
        <==> WeekOf(score) == period && Late(start, events, i, score)
      {
        BeyondIsLate(start, events, i, period, score);
      }
      assert SettledFrom(start, events, i, j, period);
    }
  }

  lemma SettlesInRange(start: World, events: seq<Event>, i: nat, j: nat, period: int)
    requires Settles(start, events, i, j, period)
    ensures i < j < |events| && events[i].Reads? && IsSettled(BooksOf(At(start, events, j + 1), period))
  {
  }

  // ---------- the failing case ----------

  /** Checked a microsecond before the week's end, committed after the settlement. */
  function LateRun(score: Board.Score, facts: SettleFacts): seq<Event> {
    var period := WeekOf(score);
    [Checks(period + WEEK_US - 1, score), Reads(period + WEEK_US, period, facts), Ends, Commits(score)]
  }

  /** A week can be settled for good without its winner: the only score of the final board has no recipient although
      the first rank is rewarded. */
  lemma LateScoreIsMissed(start: World, score: Board.Score, facts: SettleFacts, tiers: seq<Tier>)
    requires Fresh(start) && Board.Storable(score.points) && Refusal(facts, WeekOf(score)).None?
    requires facts.tierPayload == Some(Some(tiers)) && AwardAt(tiers, 0).Award?
    ensures var end := At(start, LateRun(score, facts), 4);
      && BoardOf(end, WeekOf(score)) == {score}
      && IsSettled(BooksOf(end, WeekOf(score))) && BooksOf(end, WeekOf(score)).recipients == map[]
  {
    hide Refusal, PeriodStart, AwardAt;
    var events := LateRun(score, facts);
    var period := WeekOf(score);
    EmptyBoardIsValid();
    EmptyList();
    var w1 := Next(start, events[0]);
    var w2 := Next(w1, events[1]);
    assert ListOf(w1, period) == [];
    PayNone(tiers, [], map[], map[]);
    var w3 := Next(w2, events[2]);
    assert Settling(Books(None, map[], map[]), facts, period, period + WEEK_US, []).1
        == Books(Some(RunRow(Some(tiers), Some(period + WEEK_US))), map[], map[]);
    OneRowIsValid(score);
    var w4 := Next(w3, events[3]);
    hide Next;
    FourSteps(start, events);
  }

  lemma EmptyList()
    ensures Board.ValidBoard({}) && Board.SettlementScores({}) == []
  {
    EmptyBoardIsValid();
    Board.SettlementIsFirstPerPlayer({});
  }

  lemma OneRowIsValid(score: Board.Score)
    ensures Board.ValidBoard({} + {score})
  {
  }

  lemma FourSteps(start: World, events: seq<Event>)
    requires |events| == 4
    ensures At(start, events, 4) == Next(Next(Next(Next(start, events[0]), events[1]), events[2]), events[3])
  {
    hide Next;
    assert At(start, events, 1) == Next(At(start, events, 0), events[0]);
    assert At(start, events, 2) == Next(At(start, events, 1), events[1]);
    assert At(start, events, 3) == Next(At(start, events, 2), events[2]);
  }
}
