/** What holds in every run of session calls: one active session per player and game, one session per request
    id, and the distance that cooldowns keep. */
module SessionSafety {
  import opened Text
  import opened Rng
  import opened Lifecycle
  import opened GameRules
  import opened Sessions

  predicate SamePair(a: SessionRow, b: SessionRow) {
    Of(a, b.playerId, b.gameKey)
  }

  /** When session `j` was created, the latest session of the pair, which is at least as late as `i`, had cooled
      down. */
  ghost predicate SpacedBy(cat: Catalogue, rows: seq<SessionRow>, i: nat, j: nat, k: nat)
    requires i < |rows| && j < |rows|
  {
    && k < j && SamePair(rows[k], rows[j]) && !Later(rows[i], rows[k])
    && rows[k].createdAt + CooldownUs(cat, rows[k]) <= rows[j].createdAt
  }

  ghost predicate SpacedPair(cat: Catalogue, rows: seq<SessionRow>, i: nat, j: nat)
    requires i < |rows| && j < |rows|
  {
    SamePair(rows[i], rows[j]) ==> exists k: nat :: SpacedBy(cat, rows, i, j, k)
  }

  ghost predicate Spaced(cat: Catalogue, rows: seq<SessionRow>) {
    forall i, j | 0 <= i < j < |rows| :: SpacedPair(cat, rows, i, j)
  }

  predicate Ordered(rows: seq<SessionRow>) {
    forall i, j | 0 <= i < j < |rows| :: rows[i].createdAt <= rows[j].createdAt
  }

  predicate DistinctRequests(rows: seq<SessionRow>) {
    forall i, j | 0 <= i < j < |rows| :: rows[i].requestId != rows[j].requestId
  }

  predicate OneActive(rows: seq<SessionRow>) {
    forall i, j | 0 <= i < j < |rows| && SamePair(rows[i], rows[j]) :: rows[i].status != Active || rows[j].status != Active
  }

  predicate Printed(cat: Catalogue, rows: seq<SessionRow>) {
    forall i | 0 <= i < |rows| :: rows[i].fingerprint == cat.fingerprint(rows[i].playerId, rows[i].gameKey)
  }

  /** Every session is pinned to a configuration of its own game. */
  predicate Pinned(cat: Catalogue, rows: seq<SessionRow>) {
    forall i | 0 <= i < |rows| :: cat.game(rows[i].config) == rows[i].gameKey
  }

  predicate Past(rows: seq<SessionRow>, clock: int) {
    forall i | 0 <= i < |rows| :: rows[i].createdAt <= clock
  }

  ghost predicate WorldInv(cat: Catalogue, w: World) {
    && Spaced(cat, w.rows) && Ordered(w.rows) && DistinctRequests(w.rows) && OneActive(w.rows) && Printed(cat, w.rows)
    && Pinned(cat, w.rows) && Past(w.rows, w.clock)
  }

  // ---------- each step ----------

  /** Everything about a session but its status and end is written once. */
  predicate Kept(a: SessionRow, b: SessionRow) {
    b == a.(status := b.status, endedAt := b.endedAt)
  }

  predicate AllKept(rows: seq<SessionRow>, rows': seq<SessionRow>) {
    |rows| <= |rows'| && forall i | 0 <= i < |rows| :: Kept(rows[i], rows'[i])
  }

  /** Sessions only leave the active state. */
  predicate OnlyEnd(rows: seq<SessionRow>, rows': seq<SessionRow>) {
    && |rows'| == |rows|
    && forall i | 0 <= i < |rows| :: Kept(rows[i], rows'[i]) && (rows'[i].status == Active ==> rows[i].status == Active)
  }

  lemma EndingIsSafe(cat: Catalogue, w: World, w': World)
    requires WorldInv(cat, w) && OnlyEnd(w.rows, w'.rows) && w.clock <= w'.clock
    ensures WorldInv(cat, w')
  {
    EndingKeepsSpacing(cat, w.rows, w'.rows);
    hide Spaced, CooldownUs, Later;
  }

  lemma EndingKeepsSpacing(cat: Catalogue, rows: seq<SessionRow>, rows': seq<SessionRow>)
    requires Spaced(cat, rows) && OnlyEnd(rows, rows')
    ensures Spaced(cat, rows')
  {
    hide CooldownUs;
    forall i, j | 0 <= i < j < |rows'| ensures SpacedPair(cat, rows', i, j) {
      assert SpacedPair(cat, rows, i, j);
      if SamePair(rows'[i], rows'[j]) {
        var k: nat :| SpacedBy(cat, rows, i, j, k);
        SameCooldown(cat, rows[k], rows'[k]);
        assert SpacedBy(cat, rows', i, j, k);
      }
    }
  }

  lemma SameCooldown(cat: Catalogue, a: SessionRow, b: SessionRow)
    requires Kept(a, b)
    ensures CooldownUs(cat, a) == CooldownUs(cat, b)
  {
  }

  lemma ExpiryOnlyEnds(rows: seq<SessionRow>, playerId: Uuid, gameKey: string, now: int)
    ensures OnlyEnd(rows, ExpireDue(rows, playerId, gameKey, now))
  {
  }

  /** A new row goes after the latest session of its pair has cooled down. */
  lemma AddingKeepsSpacing(cat: Catalogue, rows: seq<SessionRow>, row: SessionRow)
    requires Spaced(cat, rows) && Blocked(cat, rows, row.playerId, row.gameKey, row.createdAt).None?
    ensures Spaced(cat, rows + [row])
  {
    hide CooldownUs;
    LatestIsLatest(rows, row.playerId, row.gameKey);
    var all := rows + [row];
    forall i, j | 0 <= i < j < |all| ensures SpacedPair(cat, all, i, j) {
      if SamePair(all[i], all[j]) {
        if j < |rows| {
          assert SpacedPair(cat, rows, i, j);
          var k: nat :| SpacedBy(cat, rows, i, j, k);
          assert SpacedBy(cat, all, i, j, k);
        } else {
          var k := LatestIndex(rows, row.playerId, row.gameKey).value;
          assert SpacedBy(cat, all, i, j, k);
        }
      }
    }
  }

  lemma CreatingIsSafe(cat: Catalogue, w: World, request: Request, facts: Facts, now: int, id: Uuid)
    requires WorldInv(cat, w) && w.clock <= now && (facts.config.Some? ==> cat.game(facts.config.value) == request.gameKey)
    ensures WorldInv(cat, World(Create(cat, w.rows, request, facts, now, id).rows, now))
  {
    hide Spaced, Blocked, CooldownUs, ExpireDue, Later, LatestIndex;
    var c := Create(cat, w.rows, request, facts, now, id);
    if c.reply.NewSession? {
      var expired := ExpireDue(w.rows, request.playerId, request.gameKey, now);
      ExpiryOnlyEnds(w.rows, request.playerId, request.gameKey, now);
      EndingIsSafe(cat, w, World(expired, now));
      RequestIndexFinds(w.rows, request.requestId);
      var row := NewRow(cat, request, facts.config.value, now, id);
      AddingKeepsSpacing(cat, expired, row);
      AddingKeepsRest(cat, w.rows, expired, row);
    }
  }

  lemma AddingKeepsRest(cat: Catalogue, before: seq<SessionRow>, rows: seq<SessionRow>, row: SessionRow)
    requires OnlyEnd(before, rows) && Ordered(rows) && DistinctRequests(rows) && OneActive(rows) && Printed(cat, rows)
    requires Pinned(cat, rows) && cat.game(row.config) == row.gameKey && Past(rows, row.createdAt)
    requires Insertable(rows, row.playerId, row.gameKey, row.id)
    requires forall j | 0 <= j < |before| :: before[j].requestId != row.requestId
    requires row.fingerprint == cat.fingerprint(row.playerId, row.gameKey)
    ensures var all := rows + [row];
      Ordered(all) && DistinctRequests(all) && OneActive(all) && Printed(cat, all) && Pinned(cat, all) && Past(all, row.createdAt)
  {
    var all := rows + [row];
    assert forall j | 0 <= j < |rows| :: all[j] == rows[j] && Kept(before[j], rows[j]);
  }

  lemma StepIsSafe(cat: Catalogue, w: World, ev: Event)
    requires WorldInv(cat, w) && Enabled(cat, w, ev)
    ensures WorldInv(cat, Apply(cat, w, ev)) && AllKept(w.rows, Apply(cat, w, ev).rows)
  {
    hide WorldInv, Create, ExpireDue;
    match ev
    case Creates(request, facts, now, id) =>
      CreatingIsSafe(cat, w, request, facts, now, id);
      CreatingKeeps(cat, w.rows, request, facts, now, id);
    case End(k, status, now) => EndingIsSafe(cat, w, Apply(cat, w, ev));
    case Looks(playerId, _, gameKey, _, now) =>
      ExpiryOnlyEnds(w.rows, playerId, gameKey, now);
      EndingIsSafe(cat, w, Apply(cat, w, ev));
  }

  lemma CreatingKeeps(cat: Catalogue, rows: seq<SessionRow>, request: Request, facts: Facts, now: int, id: Uuid)
    ensures AllKept(rows, Create(cat, rows, request, facts, now, id).rows)
  {
    hide Blocked, Insertable;
    ExpiryOnlyEnds(rows, request.playerId, request.gameKey, now);
  }

  lemma {:induction false} RunIsSafe(cat: Catalogue, w: World, events: seq<Event>)
    requires WorldInv(cat, w) && CanRun(cat, w, events)
    ensures WorldInv(cat, Run(cat, w, events)) && AllKept(w.rows, Run(cat, w, events).rows)
    decreases |events|
  {
    hide WorldInv, Enabled, Apply;
    if events != [] {
      var w' := Apply(cat, w, events[0]);
      StepIsSafe(cat, w, events[0]);
      RunIsSafe(cat, w', events[1..]);
      KeptThrough(w.rows, w'.rows, Run(cat, w', events[1..]).rows);
    }
  }

  lemma KeptThrough(a: seq<SessionRow>, b: seq<SessionRow>, c: seq<SessionRow>)
    requires AllKept(a, b) && AllKept(b, c)
    ensures AllKept(a, c)
  {
    forall i | 0 <= i < |a| ensures Kept(a[i], c[i]) {
      assert Kept(a[i], b[i]) && Kept(b[i], c[i]);
    }
  }

  lemma EmptyIsSafe(cat: Catalogue, clock: int)
    ensures WorldInv(cat, World([], clock))
  {
  }

  // ---------- one active session, one session per request ----------

  lemma AtMostOneActive(cat: Catalogue, clock: int, events: seq<Event>, i: nat, j: nat)
    requires CanRun(cat, World([], clock), events)
    requires var rows := Run(cat, World([], clock), events).rows;
      i < |rows| && j < |rows| && SamePair(rows[i], rows[j]) && rows[i].status == Active && rows[j].status == Active
    ensures i == j
  {
    EmptyIsSafe(cat, clock);
    RunIsSafe(cat, World([], clock), events);
    hide Spaced;
    assert OneActive(Run(cat, World([], clock), events).rows);
  }

  lemma RequestIndexIs(rows: seq<SessionRow>, k: nat)
    requires DistinctRequests(rows) && k < |rows|
    ensures RequestIndex(rows, rows[k].requestId) == Some(k)
  {
    RequestIndexFinds(rows, rows[k].requestId);
  }

  /** A request id names one session for ever: whatever happens in between, repeating the request returns that
      session, and using its id for anything else is a conflict. Neither adds a row. */
  lemma RequestNamesOneSession(cat: Catalogue, w: World, events: seq<Event>, k: nat, request: Request, facts: Facts,
                               now: int, id: Uuid)
    requires WorldInv(cat, w) && CanRun(cat, w, events) && k < |w.rows| && request.requestId == w.rows[k].requestId
    requires request.ownerId == request.playerId && facts.playerActive.Some?
    ensures var rows := Run(cat, w, events).rows;
      && k < |rows| && rows[k].id == w.rows[k].id
      && Create(cat, rows, request, facts, now, id)
         == Creation(rows,
                     if cat.fingerprint(request.playerId, request.gameKey)
                        == cat.fingerprint(w.rows[k].playerId, w.rows[k].gameKey)
                     then SameSession(k) else Rejected(RequestConflict))
  {
    hide Spaced, CreateFresh;
    RunIsSafe(cat, w, events);
    var rows := Run(cat, w, events).rows;
    assert Kept(w.rows[k], rows[k]);
    RequestIndexIs(rows, k);
  }

  // ---------- cooldowns ----------

  ghost predicate Separated(cat: Catalogue, rows: seq<SessionRow>, i: nat, j: nat)
    requires i < |rows| && j < |rows|
  {
    rows[i].createdAt + 1_000_000 * cat.payload(rows[i].config).cooldown <= rows[j].createdAt
  }

  /** Another session of the pair was created at the very same microsecond, before `i` and without a cooldown. */
  ghost predicate Tied(cat: Catalogue, rows: seq<SessionRow>, i: nat)
    requires i < |rows|
  {
    exists m :: 0 <= m < i && SamePair(rows[m], rows[i]) && rows[m].createdAt == rows[i].createdAt
      && cat.payload(rows[m].config).cooldown == 0
  }

  /** Two sessions of a pair are apart by the earlier one's cooldown, unless that session shares its microsecond
      with an earlier one that had none. */
  lemma {:induction false} SeparatedUnlessTied(cat: Catalogue, rows: seq<SessionRow>, i: nat, j: nat)
    requires Spaced(cat, rows) && Ordered(rows) && i < j < |rows| && SamePair(rows[i], rows[j])
    ensures Separated(cat, rows, i, j) || Tied(cat, rows, i)
    decreases j
  {
    assert SpacedPair(cat, rows, i, j);
    var k: nat :| SpacedBy(cat, rows, i, j, k);
    if k > i {
      SeparatedUnlessTied(cat, rows, i, k);
    } else if k < i {
      assert rows[k].createdAt == rows[i].createdAt;
      assert SpacedPair(cat, rows, k, i);
      var m: nat :| SpacedBy(cat, rows, k, i, m);
      assert rows[m].createdAt == rows[i].createdAt;
    }
  }

  /** With a cooldown on every session of the pair there are no ties, so any two creations are separated by the
      earlier session's pinned cooldown. */
  lemma CooldownsSeparate(cat: Catalogue, clock: int, events: seq<Event>, i: nat, j: nat)
    requires CanRun(cat, World([], clock), events)
    requires var rows := Run(cat, World([], clock), events).rows;
      && i < j < |rows| && SamePair(rows[i], rows[j])
      && forall k | 0 <= k < i && SamePair(rows[k], rows[j]) :: cat.payload(rows[k].config).cooldown > 0
    ensures Separated(cat, Run(cat, World([], clock), events).rows, i, j)
  {
    hide Later;
    EmptyIsSafe(cat, clock);
    RunIsSafe(cat, World([], clock), events);
    SeparatedUnlessTied(cat, Run(cat, World([], clock), events).rows, i, j);
  }

  /** Some configuration of the game has a cooldown and some other has none. */
  ghost predicate Mixes(cat: Catalogue, gameKey: string) {
    exists a: Uuid, b: Uuid :: cat.game(a) == gameKey && cat.game(b) == gameKey && Uneven(cat, a, b)
  }

  predicate Uneven(cat: Catalogue, a: Uuid, b: Uuid) {
    cat.payload(a).cooldown == 0 && cat.payload(b).cooldown > 0
  }

  ghost predicate AlwaysSeparated(cat: Catalogue, gameKey: string) {
    forall events, i: nat, j: nat ::
      CanRun(cat, World([], 0), events) && i < j < |Run(cat, World([], 0), events).rows|
      && SamePair(Run(cat, World([], 0), events).rows[i], Run(cat, World([], 0), events).rows[j])
      && Run(cat, World([], 0), events).rows[i].gameKey == gameKey
      ==> Separated(cat, Run(cat, World([], 0), events).rows, i, j)
  }

  /** Exactly when cooldowns keep a player's sessions of a game apart in every run: when the game's configurations do
      not mix some without a cooldown and some with one. */
  lemma CooldownsSeparateIff(cat: Catalogue, gameKey: string)
    requires KnownGame(gameKey)
    ensures AlwaysSeparated(cat, gameKey) <==> !Mixes(cat, gameKey)
  {
    if Mixes(cat, gameKey) {
      var a: Uuid, b: Uuid :| cat.game(a) == gameKey && cat.game(b) == gameKey && Uneven(cat, a, b);
      TieSkipsCooldown(cat, gameKey, a, b);
    } else {
      hide Run, CanRun;
      forall events, i: nat, j: nat | CanRun(cat, World([], 0), events) && i < j < |Run(cat, World([], 0), events).rows|
        && SamePair(Run(cat, World([], 0), events).rows[i], Run(cat, World([], 0), events).rows[j])
        && Run(cat, World([], 0), events).rows[i].gameKey == gameKey
        ensures Separated(cat, Run(cat, World([], 0), events).rows, i, j)
      {
        UnmixedSeparate(cat, gameKey, events, i, j);
      }
    }
  }

  lemma UnmixedSeparate(cat: Catalogue, gameKey: string, events: seq<Event>, i: nat, j: nat)
    requires !Mixes(cat, gameKey) && CanRun(cat, World([], 0), events)
    requires var rows := Run(cat, World([], 0), events).rows;
      i < j < |rows| && SamePair(rows[i], rows[j]) && rows[i].gameKey == gameKey
    ensures Separated(cat, Run(cat, World([], 0), events).rows, i, j)
  {
    EmptyIsSafe(cat, 0);
    RunIsSafe(cat, World([], 0), events);
    var rows := Run(cat, World([], 0), events).rows;
    assert Pinned(cat, rows) && Ordered(rows);
    hide Run, CanRun, Later, Spaced, Ordered;
    if cat.payload(rows[i].config).cooldown == 0 {
      assert rows[i].createdAt <= rows[j].createdAt by { InOrder(rows, i, j); }
    } else {
      forall k | 0 <= k < i && SamePair(rows[k], rows[j]) ensures cat.payload(rows[k].config).cooldown > 0 {
        assert !Uneven(cat, rows[k].config, rows[i].config);
      }
      CooldownsSeparate(cat, 0, events, i, j);
    }
  }

  lemma InOrder(rows: seq<SessionRow>, i: nat, j: nat)
    requires Ordered(rows) && i < j < |rows|
    ensures rows[i].createdAt <= rows[j].createdAt
  {
  }

  // ---------- the tie ----------

  const PLAYER: Uuid := 1

  function Asks(gameKey: string, requestId: Uuid): Request {
    Request(requestId, PLAYER, PLAYER, gameKey)
  }

  function Now(config: Uuid): Facts {
    Facts(Some(true), Some(true), Some(config))
  }

  /** Why the exception is there: a session created in the same microsecond as a finished one with no cooldown,
      but with a smaller id, is not the latest one, and its own cooldown is not waited for. */
  lemma TieSkipsCooldown(cat: Catalogue, gameKey: string, none: Uuid, some: Uuid)
    requires KnownGame(gameKey) && cat.game(none) == gameKey && cat.game(some) == gameKey && Uneven(cat, none, some)
    ensures !AlwaysSeparated(cat, gameKey)
  {
    var a := NewRow(cat, Asks(gameKey, 1), none, 0, 9);
    var b := NewRow(cat, Asks(gameKey, 2), some, 0, 5);
    var c := NewRow(cat, Asks(gameKey, 3), none, 1, 6);
    var a', b' := a.(status := Cancelled, endedAt := Some(0)), b.(status := Cancelled, endedAt := Some(0));
    var e1, e2, e3 := Creates(Asks(gameKey, 1), Now(none), 0, 9), Creates(Asks(gameKey, 2), Now(some), 0, 5),
                      Creates(Asks(gameKey, 3), Now(none), 1, 6);
    FirstIsCreated(cat, gameKey, none);
    SecondIsCreated(cat, gameKey, none, some, a');
    ThirdIsCreated(cat, gameKey, none, some, a', b');
    var w0, w1, w2 := World([], 0), World([a], 0), World([a'], 0);
    var w3, w4, w5 := World([a', b], 0), World([a', b'], 0), World([a', b', c], 1);
    hide Create, AlwaysSeparated;
    assert Apply(cat, w0, e1) == w1 && Apply(cat, w1, End(0, Cancelled, 0)) == w2 && Apply(cat, w2, e2) == w3;
    assert Apply(cat, w3, End(1, Cancelled, 0)) == w4 && Apply(cat, w4, e3) == w5;
    var events := [e1, End(0, Cancelled, 0), e2, End(1, Cancelled, 0), e3];
    LastStep(cat, w4, e3);
    FirstStep(cat, w3, [End(1, Cancelled, 0), e3]);
    FirstStep(cat, w2, [e2, End(1, Cancelled, 0), e3]);
    FirstStep(cat, w1, [End(0, Cancelled, 0), e2, End(1, Cancelled, 0), e3]);
    FirstStep(cat, w0, events);
    assert !Separated(cat, w5.rows, 1, 2);
    NotAlways(cat, gameKey, events, 1, 2);
  }

  lemma NotAlways(cat: Catalogue, gameKey: string, events: seq<Event>, i: nat, j: nat)
    requires CanRun(cat, World([], 0), events)
    requires var rows := Run(cat, World([], 0), events).rows;
      i < j < |rows| && SamePair(rows[i], rows[j]) && rows[i].gameKey == gameKey && !Separated(cat, rows, i, j)
    ensures !AlwaysSeparated(cat, gameKey)
  {
    hide Run, CanRun, Separated;
  }

  lemma LastStep(cat: Catalogue, w: World, ev: Event)
    requires Enabled(cat, w, ev)
    ensures CanRun(cat, w, [ev]) && Run(cat, w, [ev]) == Apply(cat, w, ev)
  {
    hide Apply;
    assert [ev][1..] == [];
  }

  lemma FirstStep(cat: Catalogue, w: World, events: seq<Event>)
    requires events != [] && Enabled(cat, w, events[0]) && CanRun(cat, Apply(cat, w, events[0]), events[1..])
    ensures CanRun(cat, w, events) && Run(cat, w, events) == Run(cat, Apply(cat, w, events[0]), events[1..])
  {
    hide Apply, Enabled;
  }

  lemma FirstIsCreated(cat: Catalogue, gameKey: string, none: Uuid)
    requires KnownGame(gameKey)
    ensures Create(cat, [], Asks(gameKey, 1), Now(none), 0, 9).rows == [NewRow(cat, Asks(gameKey, 1), none, 0, 9)]
  {
    assert ExpireDue([], PLAYER, gameKey, 0) == [];
  }

  lemma SecondIsCreated(cat: Catalogue, gameKey: string, none: Uuid, some: Uuid, a: SessionRow)
    requires KnownGame(gameKey) && cat.payload(none).cooldown == 0
    requires a == NewRow(cat, Asks(gameKey, 1), none, 0, 9).(status := Cancelled, endedAt := Some(0))
    ensures Create(cat, [a], Asks(gameKey, 2), Now(some), 0, 5).rows == [a, NewRow(cat, Asks(gameKey, 2), some, 0, 5)]
  {
    assert ExpireDue([a], PLAYER, gameKey, 0) == [a];
    assert [a][..0] == [] && [a][1..] == [];
    assert LatestIndex([a][..0], PLAYER, gameKey) == None;
    assert RequestIndex([a], 2) == None;
  }

  lemma ThirdIsCreated(cat: Catalogue, gameKey: string, none: Uuid, some: Uuid, a: SessionRow, b: SessionRow)
    requires KnownGame(gameKey) && cat.payload(none).cooldown == 0
    requires a == NewRow(cat, Asks(gameKey, 1), none, 0, 9).(status := Cancelled, endedAt := Some(0))
    requires b == NewRow(cat, Asks(gameKey, 2), some, 0, 5).(status := Cancelled, endedAt := Some(0))
    ensures Create(cat, [a, b], Asks(gameKey, 3), Now(none), 1, 6).rows == [a, b, NewRow(cat, Asks(gameKey, 3), none, 1, 6)]
  {
    assert ExpireDue([a, b], PLAYER, gameKey, 1) == [a, b];
    assert [a, b][..1] == [a] && [a][..0] == [] && [a, b][1..] == [b] && [b][1..] == [];
    assert LatestIndex([a][..0], PLAYER, gameKey) == None;
    assert LatestIndex([a], PLAYER, gameKey) == Some(0);
    assert LatestIndex([a, b], PLAYER, gameKey) == Some(0);
    assert RequestIndex([b], 3) == None;
    assert RequestIndex([a, b], 3) == None;
  }

  // ---------- how many sessions fit a window ----------

  /** Sessions of a pair among the first `n` rows that were created in [from, to]. */
  function CountIn(rows: seq<SessionRow>, playerId: Uuid, gameKey: string, from: int, to: int, n: nat): nat
    requires n <= |rows|
  {
    if n == 0 then 0
    else
      CountIn(rows, playerId, gameKey, from, to, n - 1)
      + (if Of(rows[n - 1], playerId, gameKey) && from <= rows[n - 1].createdAt <= to then 1 else 0)
  }

  /** Each further session of the pair pushes the last one at least `c` further. */
  lemma {:induction false} CountSpreads(cat: Catalogue, rows: seq<SessionRow>, playerId: Uuid, gameKey: string,
                                        from: int, to: int, c: int, n: nat) returns (last: nat)
    requires n <= |rows| && c > 0
    requires forall i, j | 0 <= i < j < |rows| && Of(rows[i], playerId, gameKey) && Of(rows[j], playerId, gameKey) ::
      rows[i].createdAt + c <= rows[j].createdAt
    ensures var q := CountIn(rows, playerId, gameKey, from, to, n);
      q > 0 ==> last < n && Of(rows[last], playerId, gameKey) && from + (q - 1) * c <= rows[last].createdAt <= to
  {
    hide CooldownUs;
    last := 0;
    if n > 0 {
      last := CountSpreads(cat, rows, playerId, gameKey, from, to, c, n - 1);
      if Of(rows[n - 1], playerId, gameKey) && from <= rows[n - 1].createdAt <= to {
        var q := CountIn(rows, playerId, gameKey, from, to, n - 1);
        if q > 0 {
          assert rows[last].createdAt + c <= rows[n - 1].createdAt;
          assert from + q * c == from + (q - 1) * c + c;
        }
        last := n - 1;
      }
    }
  }

  lemma Divided(q: nat, c: int, width: nat)
    requires c > 0 && q * c <= width
    ensures q <= width / c
  {
    assert c * q == q * c;
    ExactQuotient(q, c);
    Quotient(c * q, width, c);
  }

  /** If every session of the pair has a cooldown of at least `c`, a window of length `width` sees at most
      width / c + 1 of them. */
  lemma WindowBound(cat: Catalogue, clock: int, events: seq<Event>, playerId: Uuid, gameKey: string, from: int,
                    width: nat, c: int)
    requires CanRun(cat, World([], clock), events) && c > 0
    requires var rows := Run(cat, World([], clock), events).rows;
      forall k | 0 <= k < |rows| && Of(rows[k], playerId, gameKey) :: 1_000_000 * cat.payload(rows[k].config).cooldown >= c
    ensures var rows := Run(cat, World([], clock), events).rows;
      CountIn(rows, playerId, gameKey, from, from + width, |rows|) <= width / c + 1
  {
    var rows := Run(cat, World([], clock), events).rows;
    forall i, j | 0 <= i < j < |rows| && Of(rows[i], playerId, gameKey) && Of(rows[j], playerId, gameKey)
      ensures rows[i].createdAt + c <= rows[j].createdAt
    {
      CooldownsSeparate(cat, clock, events, i, j);
    }
    hide Run, CanRun;
    var last := CountSpreads(cat, rows, playerId, gameKey, from, from + width, c, |rows|);
    var q := CountIn(rows, playerId, gameKey, from, from + width, |rows|);
    if q > 0 { Divided(q - 1, c, width); }
  }

  // ---------- next_play_at ----------

  lemma ExpiredOnce(rows: seq<SessionRow>, playerId: Uuid, gameKey: string, now: int)
    ensures ExpireDue(ExpireDue(rows, playerId, gameKey, now), playerId, gameKey, now) == ExpireDue(rows, playerId, gameKey, now)
  {
  }

  /** The recovery view tells the truth about waiting: right after it, a fresh request is turned down for its
      cooldown exactly if a time to play next was given and no session is active. */
  lemma NextPlayAtIsTheCooldown(cat: Catalogue, rows: seq<SessionRow>, request: Request, facts: Facts, now: int,
                                id: Uuid)
    requires request.ownerId == request.playerId && facts == Facts(Some(true), Some(true), facts.config)
    requires facts.config.Some?
    requires forall k | 0 <= k < |rows| :: rows[k].requestId != request.requestId
    ensures var (reply, seen) := Look(cat, rows, request.playerId, request.ownerId, request.gameKey, facts, now);
      && reply.State?
      && (Create(cat, seen, request, facts, now, id).reply == Rejected(CoolingDown)
          <==> reply.nextPlayAt.Some?
               && reply.latest.Some? && reply.latest.value < |seen| && seen[reply.latest.value].status != Active)
  {
    hide CooldownUs, LatestIndex, Insertable;
    var seen := ExpireDue(rows, request.playerId, request.gameKey, now);
    ExpiredOnce(rows, request.playerId, request.gameKey, now);
    RequestIndexFinds(seen, request.requestId);
  }

  /** The time given is the first at which the same table no longer holds the cooldown against a new session. */
  lemma NextPlayAtIsTheEnd(cat: Catalogue, rows: seq<SessionRow>, playerId: Uuid, gameKey: string, now: int,
                           later: int)
    requires NextPlayAt(cat, rows, playerId, gameKey, now).Some?
    requires var k := LatestIndex(rows, playerId, gameKey).value; k < |rows| && rows[k].status != Active
    ensures Blocked(cat, rows, playerId, gameKey, later) == Some(CoolingDown)
       <==> later < NextPlayAt(cat, rows, playerId, gameKey, now).value
  {
    hide CooldownUs, LatestIndex;
  }

  // ---------- when a session is created ----------

  /** The pair's latest session, if any, has cooled down. */
  predicate Cooled(cat: Catalogue, rows: seq<SessionRow>, playerId: Uuid, gameKey: string, now: int) {
    match LatestIndex(rows, playerId, gameKey)
    case None => true
    case Some(k) => k >= |rows| || rows[k].createdAt + 1_000_000 * cat.payload(rows[k].config).cooldown <= now
  }

  predicate Running(row: SessionRow, playerId: Uuid, gameKey: string, now: int) {
    Of(row, playerId, gameKey) && row.status == Active && row.expiresAt > now
  }

  /** The row of a granted request: what was asked for, pinned to the current configuration, active, and due after the skill
      check's own duration or five minutes. */
  predicate Granted(cat: Catalogue, request: Request, facts: Facts, now: int, id: Uuid, row: SessionRow) {
    && row.id == id && row.requestId == request.requestId && row.playerId == request.playerId && row.gameKey == request.gameKey
    && row.fingerprint == cat.fingerprint(request.playerId, request.gameKey) && Some(row.config) == facts.config
    && row.status == Active && row.createdAt == now && row.endedAt.None?
    && match cat.payload(row.config)
       case SkillCheckConfig(_, duration, _) => row.expiresAt == now + 1_000_000 * duration
       case _ => row.expiresAt == now + 300_000_000
  }

  /** The elapsed active session of the pair has expired at `now`; every other row is as it was. */
  predicate Swept(rows: seq<SessionRow>, playerId: Uuid, gameKey: string, now: int, rows': seq<SessionRow>) {
    && |rows'| == |rows|
    && forall k | 0 <= k < |rows| ::
         rows'[k] == if rows[k].playerId == playerId && rows[k].gameKey == gameKey && rows[k].status == Active
                        && rows[k].expiresAt <= now
                     then rows[k].(status := Expired, endedAt := Some(now)) else rows[k]
  }

  lemma ExpireDueSweeps(rows: seq<SessionRow>, playerId: Uuid, gameKey: string, now: int)
    ensures Swept(rows, playerId, gameKey, now, ExpireDue(rows, playerId, gameKey, now))
  {
  }

  /** A created session is the owner's, of an active player and game with a configuration, under a request id that is not
      used yet; beside its row only elapsed sessions of the pair change. A rejected call changes nothing. */
  lemma CreatedRows(cat: Catalogue, rows: seq<SessionRow>, request: Request, facts: Facts, now: int, id: Uuid)
    ensures var c := Create(cat, rows, request, facts, now, id);
      && (request.playerId != request.ownerId ==> c.reply == Rejected(NotYours))
      && (c.reply.Rejected? || c.reply.SameSession? ==> c.rows == rows)
      && (c.reply.NewSession? ==>
            && c.reply.index == |rows| && |c.rows| == |rows| + 1
            && request.playerId == request.ownerId && facts == Facts(Some(true), Some(true), facts.config)
            && request.gameKey in {"daily_spin", "prediction_card", "skill_check"}
            && (forall k | 0 <= k < |rows| :: rows[k].requestId != request.requestId && rows[k].id != id)
            && Swept(rows, request.playerId, request.gameKey, now, c.rows[..|rows|])
            && Granted(cat, request, facts, now, id, c.rows[|rows|]))
  {
    RequestIndexFinds(rows, request.requestId);
    ExpireDueSweeps(rows, request.playerId, request.gameKey, now);
    hide RequestIndex, Blocked, ExpireDue, Swept;
    var c := Create(cat, rows, request, facts, now, id);
    if c.reply.NewSession? {
      var expired := ExpireDue(rows, request.playerId, request.gameKey, now);
      assert c.rows[..|rows|] == expired;
      SweptKeepsIds(rows, request.playerId, request.gameKey, now, expired);
    }
  }

  lemma SweptKeepsIds(rows: seq<SessionRow>, playerId: Uuid, gameKey: string, now: int, rows': seq<SessionRow>)
    requires Swept(rows, playerId, gameKey, now, rows')
    ensures forall k | 0 <= k < |rows| :: rows'[k].id == rows[k].id
  {
  }

  /** The recovery view is the owner's and names the latest session of the pair after elapsed ones have expired, and the end
      of its cooldown if that lies ahead. A denied call changes nothing. */
  lemma LookedRows(cat: Catalogue, rows: seq<SessionRow>, playerId: Uuid, ownerId: Uuid, gameKey: string,
                   facts: Facts, now: int)
    ensures var (reply, seen) := Look(cat, rows, playerId, ownerId, gameKey, facts, now);
      && (playerId != ownerId ==> reply == Denied(NotYours))
      && (reply.State? <==> playerId == ownerId && facts.playerActive.Some? && facts.gameActive.Some? && facts.config.Some?)
      && (reply.Denied? ==> seen == rows)
      && (reply.State? ==>
            && Swept(rows, playerId, gameKey, now, seen)
            && (reply.latest.None? ==> forall k | 0 <= k < |seen| :: !(seen[k].playerId == playerId && seen[k].gameKey == gameKey))
            && (reply.latest.Some? ==> IsLatest(seen, playerId, gameKey, reply.latest.value))
            && (reply.nextPlayAt.None? ==> Cooled(cat, seen, playerId, gameKey, now))
            && (reply.nextPlayAt.Some? ==>
                  && reply.latest.Some? && reply.latest.value < |seen| && now < reply.nextPlayAt.value
                  && var row := seen[reply.latest.value];
                  reply.nextPlayAt.value == row.createdAt + 1_000_000 * cat.payload(row.config).cooldown))
  {
    var seen := ExpireDue(rows, playerId, gameKey, now);
    ExpireDueSweeps(rows, playerId, gameKey, now);
    LatestIsLatest(seen, playerId, gameKey);
    hide LatestIndex, ExpireDue, Swept, Later;
  }

  /** For a new request of an active player for an active game, a session is created exactly when none of the pair
      is still running and the latest one has cooled down; it is then the only active one. */
  lemma CreationSucceedsIff(cat: Catalogue, rows: seq<SessionRow>, request: Request, facts: Facts, now: int, id: Uuid)
    requires request.ownerId == request.playerId && facts == Facts(Some(true), Some(true), facts.config)
    requires facts.config.Some?
    requires KnownGame(request.gameKey) && forall k | 0 <= k < |rows| :: rows[k].requestId != request.requestId && rows[k].id != id
    ensures var c := Create(cat, rows, request, facts, now, id);
      && (c.reply == NewSession(|rows|) <==>
            (forall k | 0 <= k < |rows| :: !Running(rows[k], request.playerId, request.gameKey, now))
            && Cooled(cat, rows, request.playerId, request.gameKey, now))
      && (c.reply == NewSession(|rows|) ==>
            && |c.rows| == |rows| + 1 && Granted(cat, request, facts, now, id, c.rows[|rows|])
            && Swept(rows, request.playerId, request.gameKey, now, c.rows[..|rows|]))
      && (c.reply != NewSession(|rows|) ==> c.rows == rows)
  {
    CreatedRows(cat, rows, request, facts, now, id);
    RequestIndexFinds(rows, request.requestId);
    var expired := ExpireDue(rows, request.playerId, request.gameKey, now);
    SameLatest(cat, rows, expired, request.playerId, request.gameKey, now);
    InsertableIff(rows, request.playerId, request.gameKey, now, id);
    LatestIsLatest(expired, request.playerId, request.gameKey);
    hide LatestIndex, Insertable, ExpireDue, Granted, Swept;
    if Insertable(expired, request.playerId, request.gameKey, id) { NoneActive(expired, request.playerId, request.gameKey, id); }
  }

  predicate Uses(rows: seq<SessionRow>, requestId: Uuid) {
    exists k :: 0 <= k < |rows| && rows[k].requestId == requestId
  }

  predicate AnyRunning(rows: seq<SessionRow>, playerId: Uuid, gameKey: string, now: int) {
    exists k :: 0 <= k < |rows| && Running(rows[k], playerId, gameKey, now)
  }

  predicate UsesId(rows: seq<SessionRow>, id: Uuid) {
    exists k :: 0 <= k < |rows| && rows[k].id == id
  }

  /** The checks of a creation in their order, each with its reason; the last ones hold exactly the reasons there are. */
  lemma CreationIsRefused(cat: Catalogue, rows: seq<SessionRow>, request: Request, facts: Facts, now: int, id: Uuid)
    ensures var reply := Create(cat, rows, request, facts, now, id).reply;
      if request.playerId != request.ownerId then reply == Rejected(NotYours)
      else if facts.playerActive == None then reply == Rejected(NoSuch)
      else if Uses(rows, request.requestId) then reply.SameSession? || reply == Rejected(RequestConflict)
      else if facts.playerActive == Some(false) then reply == Rejected(PlayerInactive)
      else if facts.gameActive == None then reply == Rejected(NoSuch)
      else if facts.gameActive == Some(false) then reply == Rejected(GameInactive)
      else if facts.config == None then reply == Rejected(NoSuch)
      else
        && (reply == Rejected(StillActive) ==> AnyRunning(rows, request.playerId, request.gameKey, now))
        && (reply == Rejected(CoolingDown) ==> !Cooled(cat, rows, request.playerId, request.gameKey, now))
        && (reply == Rejected(UnknownGame) ==> request.gameKey !in {"daily_spin", "prediction_card", "skill_check"})
        && (reply == Rejected(UniqueViolation) ==> UsesId(rows, id) || AnyRunning(rows, request.playerId, request.gameKey, now))
        && (reply.Rejected? ==> reply.error in {StillActive, CoolingDown, UnknownGame, UniqueViolation})
  {
    RequestIndexFinds(rows, request.requestId);
    var expired := ExpireDue(rows, request.playerId, request.gameKey, now);
    ExpiryOnlyEnds(rows, request.playerId, request.gameKey, now);
    SameLatest(cat, rows, expired, request.playerId, request.gameKey, now);
    LatestIsLatest(expired, request.playerId, request.gameKey);
    ActiveIsRunning(rows, request.playerId, request.gameKey, now);
    hide LatestIndex, Insertable, ExpireDue, RequestIndex, Running, Later, AnyRunning, UsesId;
    NotInsertable(rows, request.playerId, request.gameKey, now, id);
  }

  lemma ActiveIsRunning(rows: seq<SessionRow>, playerId: Uuid, gameKey: string, now: int)
    ensures var expired := ExpireDue(rows, playerId, gameKey, now);
      forall k | 0 <= k < |rows| && Of(expired[k], playerId, gameKey) && expired[k].status == Active ::
        AnyRunning(rows, playerId, gameKey, now)
  {
    var expired := ExpireDue(rows, playerId, gameKey, now);
    forall k | 0 <= k < |rows| && Of(expired[k], playerId, gameKey) && expired[k].status == Active
      ensures AnyRunning(rows, playerId, gameKey, now)
    {
      assert Running(rows[k], playerId, gameKey, now);
    }
  }

  lemma NotInsertable(rows: seq<SessionRow>, playerId: Uuid, gameKey: string, now: int, id: Uuid)
    ensures Insertable(ExpireDue(rows, playerId, gameKey, now), playerId, gameKey, id)
            || UsesId(rows, id) || AnyRunning(rows, playerId, gameKey, now)
  {
    if !UsesId(rows, id) { InsertableIff(rows, playerId, gameKey, now, id); }
  }

  lemma NoneActive(rows: seq<SessionRow>, playerId: Uuid, gameKey: string, id: Uuid)
    requires Insertable(rows, playerId, gameKey, id)
    ensures forall k | 0 <= k < |rows| :: !(Of(rows[k], playerId, gameKey) && rows[k].status == Active)
  {
  }

  lemma InsertableIff(rows: seq<SessionRow>, playerId: Uuid, gameKey: string, now: int, id: Uuid)
    requires forall k | 0 <= k < |rows| :: rows[k].id != id
    ensures Insertable(ExpireDue(rows, playerId, gameKey, now), playerId, gameKey, id)
       <==> forall k | 0 <= k < |rows| :: !Running(rows[k], playerId, gameKey, now)
  {
    var expired := ExpireDue(rows, playerId, gameKey, now);
    forall k | 0 <= k < |rows|
      ensures expired[k].id != id
      ensures Of(expired[k], playerId, gameKey) && expired[k].status == Active <==> Running(rows[k], playerId, gameKey, now)
    {
    }
  }

  /** Expiring sessions does not change which one is the latest. */
  lemma {:induction false} SameLatest(cat: Catalogue, rows: seq<SessionRow>, expired: seq<SessionRow>, playerId: Uuid,
                                      gameKey: string, now: int)
    requires OnlyEnd(rows, expired)
    ensures LatestIndex(expired, playerId, gameKey) == LatestIndex(rows, playerId, gameKey)
    ensures Cooled(cat, expired, playerId, gameKey, now) == Cooled(cat, rows, playerId, gameKey, now)
  {
    if rows != [] {
      var n := |rows| - 1;
      SameLatest(cat, rows[..n], expired[..n], playerId, gameKey, now);
      assert Kept(rows[n], expired[n]);
      LatestIsLatest(rows[..n], playerId, gameKey);
    }
    LatestIsLatest(rows, playerId, gameKey);
    hide LatestIndex;
    if LatestIndex(rows, playerId, gameKey).Some? {
      var k := LatestIndex(rows, playerId, gameKey).value;
      assert Kept(rows[k], expired[k]);
      SameCooldown(cat, rows[k], expired[k]);
    }
  }
}
