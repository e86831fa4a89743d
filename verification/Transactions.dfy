/** Any number of concurrent commit, evaluate, cancel and read transactions on one session, one statement at a
    time. Every statement sees what is committed when it runs (READ COMMITTED) and row locks last until the
    transaction ends. */
module Transactions {
  import opened Text
  import opened Bytes
  import opened Rng
  import opened SpinProof
  import opened FairnessEvents
  import opened GameRules
  import opened Lifecycle
  import opened LifecycleSafety

  // ---------- transactions ----------

  /** The tables a transaction reads after the session row. */
  datatype Part = ProofPart | EventsPart | CustodyPart | OutcomePart

  datatype Phase = Begun | Authorized | Locked | Finished | Aborted

  /** `view` is what the transaction has read so far. */
  datatype Transaction = Transaction(call: Call, phase: Phase, view: Slice, loaded: set<Part>)

  /** A finished call with its reply. */
  datatype Record = Record(call: Call, reply: Reply)

  /** `history` lists the finished calls in the order in which they finished. */
  datatype Database = Database(
    committed: Slice, sessionLock: Option<nat>, proofLock: Option<nat>, transactions: map<nat, Transaction>,
    history: seq<Record>)

  datatype Statement =
    | Begin(id: nat, call: Call)
    | PreRead(id: nat)
    | LockSession(id: nat)
    | Load(id: nat, part: Part)
    | Finish(id: nat)
    | Abort(id: nat)

  predicate Concurrent(call: Call) {
    call.Commit? || call.Evaluate? || call.Cancel? || call.Retrieve?
  }

  /** The rows a transaction works on: what it has read, and for tables it does not look at, what is there. */
  function Filled(tx: Transaction, committed: Slice): Slice {
    committed.(
      session := tx.view.session,
      proof := if ProofPart in tx.loaded then tx.view.proof else committed.proof,
      events := if EventsPart in tx.loaded then tx.view.events else committed.events,
      custody := if CustodyPart in tx.loaded then tx.view.custody else committed.custody,
      outcome := if OutcomePart in tx.loaded then tx.view.outcome else committed.outcome,
      reward := if OutcomePart in tx.loaded then tx.view.reward else committed.reward)
  }

  function Loaded(view: Slice, part: Part, committed: Slice): Slice {
    match part
    case ProofPart => view.(proof := committed.proof)
    case EventsPart => view.(events := committed.events)
    case CustodyPart => view.(custody := committed.custody)
    case OutcomePart => view.(outcome := committed.outcome, reward := committed.reward)
  }

  predicate HasEndedProof(tx: Transaction) {
    ProofPart in tx.loaded && (tx.view.proof.Some? && tx.view.proof.value.status == Committed ==> EventsPart in tx.loaded)
  }

  /** The transaction has read everything that its branch of the call reads. */
  predicate HasRead(tx: Transaction) {
    var session := tx.view.session;
    var ending := session.status == Expired || (session.status == Active && session.expiresAt <= tx.call.now);
    match tx.call
    case Evaluate(_, _, _, _, _) =>
      && HasEndedProof(tx)
      && (tx.view.proof.Some? && tx.view.proof.value.status == Revealed ==> OutcomePart in tx.loaded)
      && (tx.view.proof.Some? && tx.view.proof.value.status == Committed && !ending ==> CustodyPart in tx.loaded)
    case Commit(owner, _, _, _) =>
      session.playerId != owner || ((ending ==> HasEndedProof(tx)) && (session.status == Active ==> ProofPart in tx.loaded))
    case Cancel(owner, _) =>
      session.playerId != owner || (ending || session.status == Active ==> HasEndedProof(tx))
    case _ =>
      session.playerId != tx.call.owner || (ending ==> HasEndedProof(tx))
  }

  /** An evaluation from its locks on: the owner is not looked at again. */
  ghost function AfterLocks(ctx: Ctx, s: Slice, call: Call): Step
    requires DrawsEnd(ctx)
  {
    match call
    case Evaluate(_, now, proofId, clientSeed, outcomeId) =>
      if s.proof.None? || s.proof.value.id != proofId then Refuse(s, NotFound)
      else if s.proof.value.status == Revealed then Replay(ctx, s, s.proof.value, clientSeed)
      else
        (match Finalize(ctx, s, now)
         case None => Refuse(s, InvalidTransition)
         case Some((expired, true)) => Step(expired, Failed(SessionExpired))
         case Some((_, false)) => Draw(ctx, s, s.proof.value, now, clientSeed, outcomeId))
    case _ => Execute(ctx, s, call)
  }

  /** COMMIT writes the rows that the call changed and appends the events it added. */
  function Merge(committed: Slice, before: Slice, after: Slice): Slice {
    Slice(if after.session != before.session then after.session else committed.session,
          if after.proof != before.proof then after.proof else committed.proof,
          if after.custody != before.custody then after.custody else committed.custody,
          if before.events <= after.events then committed.events + after.events[|before.events|..] else after.events,
          if after.outcome != before.outcome then after.outcome else committed.outcome,
          if after.reward != before.reward then after.reward else committed.reward,
          if after.score != before.score then after.score else committed.score)
  }

  ghost predicate Enabled(db: Database, st: Statement) {
    match st
    case Begin(id, call) => id !in db.transactions && Concurrent(call)
    case PreRead(id) => id in db.transactions && db.transactions[id].phase == Begun && db.transactions[id].call.Evaluate?
    case LockSession(id) =>
      && id in db.transactions && db.sessionLock.None?
      && db.transactions[id].phase == (if db.transactions[id].call.Evaluate? then Authorized else Begun)
    case Load(id, part) =>
      && id in db.transactions && db.transactions[id].phase == Locked && part !in db.transactions[id].loaded
      && (part == ProofPart ==> db.proofLock.None? || db.committed.proof.None?)
    case Finish(id) => id in db.transactions && db.transactions[id].phase == Locked && HasRead(db.transactions[id])
    case Abort(id) => id in db.transactions && db.transactions[id].phase != Finished && db.transactions[id].phase != Aborted
  }

  function Freed(db: Database, id: nat): Database {
    db.(sessionLock := if db.sessionLock == Some(id) then None else db.sessionLock,
        proofLock := if db.proofLock == Some(id) then None else db.proofLock)
  }

  function Closed(db: Database, id: nat, reply: Reply): Database
    requires id in db.transactions
  {
    var tx := db.transactions[id];
    Freed(db, id).(transactions := db.transactions[id := tx.(phase := Finished)], history := db.history + [Record(tx.call, reply)])
  }

  /** `evaluate_fairness` finds the proof and its owner without a lock. */
  function AfterPreRead(db: Database, id: nat): Database
    requires id in db.transactions && db.transactions[id].call.Evaluate?
  {
    var tx := db.transactions[id];
    if db.committed.proof.None? || db.committed.proof.value.id != tx.call.proofId then Closed(db, id, Failed(NotFound))
    else if db.committed.proof.value.playerId != tx.call.owner then Closed(db, id, Failed(Forbidden))
    else db.(transactions := db.transactions[id := tx.(phase := Authorized)])
  }

  ghost function Apply(ctx: Ctx, db: Database, st: Statement): Database
    requires DrawsEnd(ctx) && Enabled(db, st)
  {
    match st
    case Begin(id, call) => db.(transactions := db.transactions[id := Transaction(call, Begun, db.committed, {})])
    case PreRead(id) => AfterPreRead(db, id)
    case LockSession(id) =>
      var tx := db.transactions[id];
      db.(sessionLock := Some(id),
          transactions := db.transactions[id := tx.(phase := Locked, view := tx.view.(session := db.committed.session))])
    case Load(id, part) =>
      var tx := db.transactions[id];
      db.(proofLock := if part == ProofPart && db.committed.proof.Some? then Some(id) else db.proofLock,
          transactions := db.transactions[id := tx.(view := Loaded(tx.view, part, db.committed), loaded := tx.loaded + {part})])
    case Finish(id) =>
      var tx := db.transactions[id];
      var rows := Filled(tx, db.committed);
      var step := AfterLocks(ctx, rows, tx.call);
      Closed(db.(committed := Merge(db.committed, rows, step.slice)), id, step.reply)
    case Abort(id) => Freed(db, id).(transactions := db.transactions[id := db.transactions[id].(phase := Aborted)])
  }

  // ---------- serial histories ----------

  /** Executing the calls one after the other, each atomically, gives these replies and ends in `end`. */
  ghost predicate Serial(ctx: Ctx, s: Slice, history: seq<Record>, end: Slice)
    requires DrawsEnd(ctx)
    decreases |history|
  {
    if history == [] then s == end
    else
      var step := Execute(ctx, s, history[0].call);
      step.reply == history[0].reply && Serial(ctx, step.slice, history[1..], end)
  }

  lemma {:induction false} SerialGrows(ctx: Ctx, s: Slice, history: seq<Record>, end: Slice, record: Record)
    requires DrawsEnd(ctx) && Serial(ctx, s, history, end) && Execute(ctx, end, record.call).reply == record.reply
    ensures Serial(ctx, s, history + [record], Execute(ctx, end, record.call).slice)
    decreases |history|
  {
    hide DrawsEnd, Execute;
    if history == [] {
      assert (history + [record])[1..] == [];
    } else {
      SerialGrows(ctx, Execute(ctx, s, history[0].call).slice, history[1..], end, record);
      assert (history + [record])[1..] == history[1..] + [record];
    }
  }

  function Calls(history: seq<Record>): seq<Call> {
    seq(|history|, i requires 0 <= i < |history| => history[i].call)
  }

  lemma {:induction false} SerialIsRun(ctx: Ctx, s: Slice, history: seq<Record>, end: Slice)
    requires DrawsEnd(ctx) && Serial(ctx, s, history, end)
    ensures end == After(ctx, s, Calls(history))
    decreases |history|
  {
    hide DrawsEnd, Execute;
    if history != [] {
      SerialIsRun(ctx, Execute(ctx, s, history[0].call).slice, history[1..], end);
      assert Calls(history)[1..] == Calls(history[1..]);
    }
  }

  // ---------- the invariant ----------

  /** What a transaction holding the session lock has read is still what is committed. */
  ghost predicate Fresh(tx: Transaction, committed: Slice) {
    && tx.view.session == committed.session
    && (ProofPart in tx.loaded ==> tx.view.proof == committed.proof)
    && (EventsPart in tx.loaded ==> tx.view.events == committed.events)
    && (CustodyPart in tx.loaded ==> tx.view.custody == committed.custody)
    && (OutcomePart in tx.loaded ==> tx.view.outcome == committed.outcome && tx.view.reward == committed.reward)
  }

  /** What the unlocked read of an evaluation found stays true. */
  ghost predicate StillAuthorized(tx: Transaction, committed: Slice) {
    && committed.proof.Some? && tx.call.Evaluate?
    && committed.proof.value.id == tx.call.proofId && committed.proof.value.playerId == tx.call.owner
  }

  ghost predicate TransactionInv(db: Database, id: nat)
    requires id in db.transactions
  {
    var tx := db.transactions[id];
    && Concurrent(tx.call)
    && (tx.phase == Begun || tx.phase == Authorized ==> tx.loaded == {})
    && (tx.phase == Locked ==> db.sessionLock == Some(id) && Fresh(tx, db.committed))
    && ((tx.phase == Authorized || tx.phase == Locked) && tx.call.Evaluate? ==> StillAuthorized(tx, db.committed))
  }

  ghost predicate DatabaseInv(ctx: Ctx, start: Slice, db: Database)
    requires DrawsEnd(ctx)
  {
    && (forall id | id in db.transactions :: TransactionInv(db, id))
    && (db.sessionLock.Some? ==> db.sessionLock.value in db.transactions && db.transactions[db.sessionLock.value].phase == Locked)
    && (db.proofLock.Some? ==> db.proofLock == db.sessionLock)
    && Inv(ctx, db.committed) && Serial(ctx, start, db.history, db.committed)
  }

  lemma FilledIsCommitted(tx: Transaction, committed: Slice)
    requires Fresh(tx, committed)
    ensures Filled(tx, committed) == committed
  {
  }

  /** Only the owner check separates an evaluation under its locks from the atomic call. */
  lemma LocksMakeAtomic(ctx: Ctx, tx: Transaction, committed: Slice)
    requires DrawsEnd(ctx) && (tx.call.Evaluate? ==> StillAuthorized(tx, committed))
    ensures AfterLocks(ctx, committed, tx.call) == Execute(ctx, committed, tx.call)
  {
    hide DrawsEnd, Finalize, Draw, Replay, CommitFairness, CancelSession, RetrieveSession, PlaySession,
         SubmitFinalScore, ClaimSessionReward;
  }

  /** Events are only ever appended. */
  lemma EventsGrow(ctx: Ctx, s: Slice, call: Call)
    requires DrawsEnd(ctx) && Inv(ctx, s)
    ensures s.events <= Execute(ctx, s, call).slice.events
  {
    hide DrawsEnd, Inv, Finalize, EndCommitted, NewEvent, LeaderboardScore, PeriodStart, RewardValue, SkillPlay,
         CardPlay, ValidInput, Derived, MappingDigest, FactsOf, SpinOutcome;
    FinalizeAppends(ctx, s, call.now);
    if call.Commit? && s.proof.None? { NoProofNoEvents(ctx, s); }
    var cancelled := s.(session := s.session.(status := Cancelled, endedAt := Some(call.now)));
    if call.Cancel? { EndingAppends(ctx, cancelled, CancelledProof, call.now); }
  }

  lemma NoProofNoEvents(ctx: Ctx, s: Slice)
    requires Inv(ctx, s) && s.proof.None?
    ensures s.events == []
  {
  }

  lemma EndingAppends(ctx: Ctx, s: Slice, status: ProofStatus, now: int)
    ensures var ended := EndCommitted(ctx, s, status, now); ended.Some? ==> s.events <= ended.value.events
  {
    hide NewEvent;
  }

  lemma FinalizeAppends(ctx: Ctx, s: Slice, now: int)
    ensures var r := Finalize(ctx, s, now); r.Some? ==> s.events <= r.value.0.events
  {
    hide NewEvent;
  }

  lemma MergeOfCommitted(before: Slice, after: Slice)
    requires before.events <= after.events
    ensures Merge(before, before, after) == after
  {
    assert before.events + after.events[|before.events|..] == after.events;
  }

  // ---------- each statement ----------

  lemma FinishIsSafe(ctx: Ctx, start: Slice, db: Database, id: nat)
    requires DrawsEnd(ctx) && DatabaseInv(ctx, start, db) && Enabled(db, Finish(id))
    ensures DatabaseInv(ctx, start, Apply(ctx, db, Finish(id)))
    ensures Apply(ctx, db, Finish(id)).committed == Execute(ctx, db.committed, db.transactions[id].call).slice
  {
    hide DrawsEnd, Inv, Execute, AfterLocks, Merge, Serial, HasRead;
    var tx := db.transactions[id];
    assert TransactionInv(db, id);
    FilledIsCommitted(tx, db.committed);
    LocksMakeAtomic(ctx, tx, db.committed);
    EventsGrow(ctx, db.committed, tx.call);
    MergeOfCommitted(db.committed, Execute(ctx, db.committed, tx.call).slice);
    CallIsSafe(ctx, db.committed, tx.call);
    var db' := Apply(ctx, db, Finish(id));
    var step := Execute(ctx, db.committed, tx.call);
    assert db'.committed == step.slice && db'.history == db.history + [Record(tx.call, step.reply)];
    SerialGrows(ctx, start, db.history, db.committed, Record(tx.call, step.reply));
    forall other | other in db'.transactions ensures TransactionInv(db', other) {
      assert TransactionInv(db, other);
      if db'.transactions[other].phase == Authorized { StaysAuthorized(ctx, db.committed, tx.call, db'.transactions[other]); }
    }
  }

  /** The owner and the id of a proof never change, so a read without a lock is as good as one with it. */
  lemma StaysAuthorized(ctx: Ctx, s: Slice, call: Call, tx: Transaction)
    requires DrawsEnd(ctx) && Inv(ctx, s) && (tx.call.Evaluate? ==> StillAuthorized(tx, s))
    ensures tx.call.Evaluate? ==> StillAuthorized(tx, Execute(ctx, s, call).slice)
  {
    if tx.call.Evaluate? {
      CommittedIsInherited(ctx, s, call);
      CallIsSafe(ctx, s, call);
      SamePlayer(ctx, s, call);
      BoundPlayer(ctx, s);
      BoundPlayer(ctx, Execute(ctx, s, call).slice);
      hide Inv, Execute, DrawsEnd;
    }
  }

  lemma SamePlayer(ctx: Ctx, s: Slice, call: Call)
    requires DrawsEnd(ctx) && Inv(ctx, s)
    ensures Execute(ctx, s, call).slice.session.playerId == s.session.playerId
  {
    hide DrawsEnd, Inv, Finalize, EndCommitted, NewEvent, LeaderboardScore, PeriodStart, RewardValue, SkillPlay,
         CardPlay, ValidInput, Derived, MappingDigest, FactsOf, SpinOutcome, Replay;
    FinalizeIsSafe(ctx, s, call.now);
    var cancelled := s.(session := s.session.(status := Cancelled, endedAt := Some(call.now)));
    if call.Cancel? { EndingKeepsSession(ctx, cancelled, CancelledProof, call.now); }
    if call.Evaluate? && s.proof.Some? { ReplayKeepsRows(ctx, s, s.proof.value, call.clientSeed); }
  }

  lemma EndingKeepsSession(ctx: Ctx, s: Slice, status: ProofStatus, now: int)
    ensures var ended := EndCommitted(ctx, s, status, now); ended.Some? ==> ended.value.session == s.session
  {
  }

  lemma ReplayKeepsRows(ctx: Ctx, s: Slice, p: Proof, clientSeed: seq<CodePoint>)
    ensures Replay(ctx, s, p, clientSeed).slice == s
  {
  }

  lemma PreReadIsSafe(ctx: Ctx, start: Slice, db: Database, id: nat)
    requires DrawsEnd(ctx) && DatabaseInv(ctx, start, db) && Enabled(db, PreRead(id))
    ensures DatabaseInv(ctx, start, Apply(ctx, db, PreRead(id)))
  {
    hide DrawsEnd, Inv, Serial, Finalize, Draw, Replay;
    var tx := db.transactions[id];
    var db' := Apply(ctx, db, PreRead(id));
    assert TransactionInv(db, id);
    if db'.history != db.history {
      var record := db'.history[|db.history|];
      assert Execute(ctx, db.committed, tx.call) == Step(db.committed, record.reply);
      SerialGrows(ctx, start, db.history, db.committed, record);
    }
    forall other | other in db'.transactions ensures TransactionInv(db', other) {
      assert TransactionInv(db, other);
    }
  }

  lemma StatementIsSafe(ctx: Ctx, start: Slice, db: Database, st: Statement)
    requires DrawsEnd(ctx) && DatabaseInv(ctx, start, db) && Enabled(db, st)
    ensures DatabaseInv(ctx, start, Apply(ctx, db, st))
  {
    match st
    case Finish(id) => FinishIsSafe(ctx, start, db, id);
    case PreRead(id) => PreReadIsSafe(ctx, start, db, id);
    case _ => ReadingIsSafe(ctx, start, db, st);
  }

  lemma ReadingIsSafe(ctx: Ctx, start: Slice, db: Database, st: Statement)
    requires DrawsEnd(ctx) && DatabaseInv(ctx, start, db) && Enabled(db, st) && !st.Finish? && !st.PreRead?
    ensures DatabaseInv(ctx, start, Apply(ctx, db, st))
  {
    hide DrawsEnd, Inv, Serial, Execute, AfterLocks, Merge, HasRead, Filled;
    var db' := Apply(ctx, db, st);
    if st.id in db.transactions { assert TransactionInv(db, st.id); }
    forall id | id in db'.transactions ensures TransactionInv(db', id) {
      if id in db.transactions { assert TransactionInv(db, id); }
    }
  }

  // ---------- every interleaving ----------

  predicate Idle(db: Database) {
    db.sessionLock.None? && db.proofLock.None? && db.transactions == map[] && db.history == []
  }

  ghost predicate Steps(ctx: Ctx, db: Database, st: Statement, db': Database)
    requires DrawsEnd(ctx)
  {
    Enabled(db, st) && db' == Apply(ctx, db, st)
  }

  ghost predicate CanStep(ctx: Ctx, db: Database, db': Database)
    requires DrawsEnd(ctx)
  {
    exists st :: Steps(ctx, db, st, db')
  }

  ghost predicate Goes(ctx: Ctx, run: seq<Database>, i: nat)
    requires DrawsEnd(ctx) && i + 1 < |run|
  {
    CanStep(ctx, run[i], run[i + 1])
  }

  /** An interleaving: the successive states of the database, from one in which nothing is under way. */
  ghost predicate IsRun(ctx: Ctx, run: seq<Database>)
    requires DrawsEnd(ctx)
  {
    && run != [] && Idle(run[0]) && Inv(ctx, run[0].committed)
    && forall i | 0 <= i < |run| - 1 :: Goes(ctx, run, i)
  }

  lemma IdleIsSafe(ctx: Ctx, db: Database)
    requires DrawsEnd(ctx) && Idle(db) && Inv(ctx, db.committed)
    ensures DatabaseInv(ctx, db.committed, db)
  {
    hide Inv;
  }

  lemma {:induction false} RunIsSafe(ctx: Ctx, run: seq<Database>, n: nat)
    requires DrawsEnd(ctx) && IsRun(ctx, run) && n < |run|
    ensures DatabaseInv(ctx, run[0].committed, run[n])
  {
    hide DrawsEnd, DatabaseInv, Enabled, Apply, Inv, Idle;
    if n == 0 {
      IdleIsSafe(ctx, run[0]);
    } else {
      RunIsSafe(ctx, run, n - 1);
      assert Goes(ctx, run, n - 1);
      var st :| Steps(ctx, run[n - 1], st, run[n]);
      StatementIsSafe(ctx, run[0].committed, run[n - 1], st);
    }
  }

  /** Every interleaving is equivalent to executing its finished calls one at a time, in the order in which they
      finished: the same rows and the same reply to every caller. */
  lemma InterleavingsAreSerial(ctx: Ctx, run: seq<Database>, n: nat)
    requires DrawsEnd(ctx) && IsRun(ctx, run) && n < |run|
    ensures Serial(ctx, run[0].committed, run[n].history, run[n].committed)
    ensures run[n].committed == After(ctx, run[0].committed, Calls(run[n].history))
    ensures Inv(ctx, run[n].committed)
  {
    hide DrawsEnd, Inv, IsRun;
    RunIsSafe(ctx, run, n);
    SerialIsRun(ctx, run[0].committed, run[n].history, run[n].committed);
  }

  /** No two transactions are past the session lock at once, so nobody ever waits for the proof's row. */
  lemma OneHolder(ctx: Ctx, run: seq<Database>, n: nat, a: nat, b: nat)
    requires DrawsEnd(ctx) && IsRun(ctx, run) && n < |run|
    requires a in run[n].transactions && b in run[n].transactions
    requires run[n].transactions[a].phase == Locked && run[n].transactions[b].phase == Locked
    ensures a == b
    ensures run[n].proofLock.Some? ==> run[n].proofLock == Some(a)
  {
    hide DrawsEnd, Inv, Serial, IsRun;
    RunIsSafe(ctx, run, n);
    assert TransactionInv(run[n], a) && TransactionInv(run[n], b);
  }

  /** At most one commit inserts a proof, and at most one evaluation reveals it. */
  lemma {:induction false} AtMostOneOfEach(ctx: Ctx, s: Slice, history: seq<Record>, end: Slice, i: nat, j: nat)
    requires DrawsEnd(ctx) && Inv(ctx, s) && Serial(ctx, s, history, end)
    requires i < j < |history| && history[i].reply == Done && history[j].reply == Done
    ensures !(history[i].call.Commit? && history[j].call.Commit?)
    ensures !(history[i].call.Evaluate? && history[j].call.Evaluate?)
    decreases |history|
  {
    hide DrawsEnd, Inv, Execute;
    var s' := Execute(ctx, s, history[0].call).slice;
    CallIsSafe(ctx, s, history[0].call);
    if i > 0 {
      AtMostOneOfEach(ctx, s', history[1..], end, i - 1, j - 1);
    } else {
      if history[0].call.Commit? {
        CommitMakesProof(ctx, s, history[0].call);
        LaterCommitFails(ctx, s', history[1..], end, j - 1);
      }
      if history[0].call.Evaluate? {
        EvaluateEnds(ctx, s, history[0].call);
        LaterEvaluateFails(ctx, s', history[1..], end, j - 1);
      }
    }
  }

  lemma CommitMakesProof(ctx: Ctx, s: Slice, call: Call)
    requires DrawsEnd(ctx) && call.Commit? && Execute(ctx, s, call).reply == Done
    ensures Execute(ctx, s, call).slice.proof.Some?
  {
    hide DrawsEnd, Finalize, ValidBands, MappingDigest, NewEvent;
  }

  lemma EvaluateEnds(ctx: Ctx, s: Slice, call: Call)
    requires DrawsEnd(ctx) && call.Evaluate? && Execute(ctx, s, call).reply == Done
    ensures Execute(ctx, s, call).slice.session.status == Completed
  {
    hide DrawsEnd, Finalize, ValidInput, Derived, NewEvent, SpinOutcome;
  }

  lemma {:induction false} LaterCommitFails(ctx: Ctx, s: Slice, history: seq<Record>, end: Slice, j: nat)
    requires DrawsEnd(ctx) && Inv(ctx, s) && s.proof.Some? && Serial(ctx, s, history, end) && j < |history|
    ensures history[j].call.Commit? ==> history[j].reply != Done
    decreases |history|
  {
    hide DrawsEnd, Inv, Finalize;
    if j == 0 {
      hide NewProof, ValidBands;
    } else {
      CommittedIsInherited(ctx, s, history[0].call);
      CallIsSafe(ctx, s, history[0].call);
      hide Execute;
      LaterCommitFails(ctx, Execute(ctx, s, history[0].call).slice, history[1..], end, j - 1);
    }
  }

  lemma {:induction false} LaterEvaluateFails(ctx: Ctx, s: Slice, history: seq<Record>, end: Slice, j: nat)
    requires DrawsEnd(ctx) && Inv(ctx, s) && s.session.status != Active && Serial(ctx, s, history, end)
    requires j < |history|
    ensures history[j].call.Evaluate? ==> history[j].reply != Done
    decreases |history|
  {
    hide DrawsEnd, Inv, Finalize;
    if j == 0 {
      hide ValidInput, Derived;
    } else {
      EndedStays(ctx, s, history[0].call);
      CallIsSafe(ctx, s, history[0].call);
      hide Execute;
      LaterEvaluateFails(ctx, Execute(ctx, s, history[0].call).slice, history[1..], end, j - 1);
    }
  }

  /** At most one terminal transition: once the committed session has ended, later statements of any transaction
      leave its session, proof, seed, events and outcome as they are. */
  lemma {:induction false} OneTerminalTransition(ctx: Ctx, run: seq<Database>, m: nat, n: nat)
    requires DrawsEnd(ctx) && IsRun(ctx, run) && m <= n < |run|
    ensures run[m].committed.session.status != Active ==> Settled(run[m].committed, run[n].committed)
    decreases n - m
  {
    hide DrawsEnd, Inv, Enabled, Apply, Idle, DatabaseInv;
    if m < n {
      OneTerminalTransition(ctx, run, m, n - 1);
      if run[m].committed.session.status != Active {
        RunIsSafe(ctx, run, n - 1);
        assert Goes(ctx, run, n - 1);
        var st :| Steps(ctx, run[n - 1], st, run[n]);
        SettledByStatement(ctx, run[0].committed, run[n - 1], st);
      }
    }
  }

  lemma SettledByStatement(ctx: Ctx, start: Slice, db: Database, st: Statement)
    requires DrawsEnd(ctx) && DatabaseInv(ctx, start, db) && Enabled(db, st) && db.committed.session.status != Active
    ensures Settled(db.committed, Apply(ctx, db, st).committed)
  {
    hide DrawsEnd, Inv, Serial, Execute, AfterLocks, Merge, HasRead, Filled;
    if st.Finish? {
      FinishIsSafe(ctx, start, db, st.id);
      EndedStays(ctx, db.committed, db.transactions[st.id].call);
    }
  }
}
