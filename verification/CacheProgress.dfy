/** The cache is used when it can be: a page request that meets a finished, up-to-date generation and is not
    disturbed is served from Redis. */
module CacheProgress {
  import opened Text
  import opened Sorting
  import opened Integrity
  import opened Projection
  import opened CacheProtocol
  import opened CacheSafety
  import opened RebuildSafety
  import Board

  /** The generation that is current has not been deleted by its own rebuild, was built from the rows and the
      revision of now, and was signed with a key the reader has. */
  ghost predicate UpToDate(env: Env, st: State, g: string)
  {
    && g in st.rebuilds
    && var rb := st.rebuilds[g];
    && Current(st, KeyOf(g, rb))
    && !Deleted(st, KeyOf(g, rb))
    && rb.seen == |Rows(st, rb.scope)| && rb.revision == |Rows(st, rb.scope)|
    && Resolves(env.rt, env.ring, rb.signer)
  }

  /** The statements of one page request, first those that find the generation, then those that read it. */
  function Finding(scope: Scope, offset: nat, limit: nat): seq<ReaderStep> {
    [Count(scope, offset, limit), CheckRevision, FollowPointer]
  }

  const VERIFYING: seq<ReaderStep> := [ReadMetadata, ReadCardinality]

  ghost predicate CanRead(env: Env, st: State, steps: seq<ReaderStep>)
    decreases |steps|
  {
    steps == [] || (ReaderReady(st, steps[0]) && CanRead(env, st.(reader := NextReader(env, st, steps[0])), steps[1..]))
  }

  ghost function AfterReads(env: Env, st: State, steps: seq<ReaderStep>): Reader
    requires CanRead(env, st, steps)
    decreases |steps|
  {
    if steps == [] then st.reader else AfterReads(env, st.(reader := NextReader(env, st, steps[0])), steps[1..])
  }

  ghost predicate Trusting(env: Env, st: State, g: string, r: Reader, offset: nat, limit: nat)
    requires g in st.rebuilds
  {
    var rb := st.rebuilds[g];
    && r.scope == rb.scope && r.generation == g && r.count == |Rows(st, rb.scope)| && r.revision == r.count
    && r.offset == offset && r.limit == limit
  }

  lemma NamedAndWhole(env: Env, st: State, g: string)
    requires Orderly(env, st) && UpToDate(env, st, g)
    ensures var rb := st.rebuilds[g];
      && PastSigning(rb.phase)
      && KeyOf(g, rb) in st.redis.metadata
      && st.redis.metadata[KeyOf(g, rb)] == Metadata(env.rt, rb.signer, ContractOf(env, g, rb))
      && Found(st.redis.members, KeyOf(g, rb), map[]) == ToSortedSet(ItemsOfRebuild(env, g, rb))
  {
    hide PreviousInv, RebuildInv, Metadata, PlayerMembers, EncodeScore;
    var rb := st.rebuilds[g];
    var key := KeyOf(g, rb);
    assert Signer(st, key) && key !in st.redis.expiring;
    assert AsWritten(env, st, key) && WholeOrAbsent(st, key);
    if rb.scores == [] { assert ItemsOfRebuild(env, g, rb) == []; }
  }

  lemma ItemsReadBack(env: Env, st: State, g: string)
    requires LogInv(st) && RebuildInv(st) && g in st.rebuilds
    ensures var rb := st.rebuilds[g];
      Listing(ToSortedSet(ItemsOfRebuild(env, g, rb))) == ItemsOfRebuild(env, g, rb)
      && |ToSortedSet(ItemsOfRebuild(env, g, rb))| == rb.seen
  {
    hide EncodeScore, ContractOf, Listing, ToSortedSet;
    var rb := st.rebuilds[g];
    assert GoodRebuild(st, g);
    var rows := Rows(st, rb.scope);
    assert ValidRows(rows);
    ValidPrefix(rows, rb.seen);
    ReadBackPasses(env.rt, rb.signer, ContractOf(env, g, rb), BoardAt(rows, rb.seen));
  }

  lemma MemberAccepted(env: Env, g: string, rb: Rebuild, k: nat)
    requires ReadsBack(env.rt) && Resolves(env.rt, env.ring, rb.signer) && k < |rb.scores|
    ensures AcceptRow(env.rt, env.ring, ContractOf(env, g, rb), ItemsOfRebuild(env, g, rb)[k], k + 1).Some?
  {
    hide Member, ParseMember, ReadsBack, UuidText;
    RowIsCanonical(rb.scores[k], k + 1);
    MemberRoundTrip(env.rt, env.ring, rb.signer, ContractOf(env, g, rb), RowOf(rb.scores[k], k + 1));
  }

  lemma PageSize<T>(items: seq<T>, offset: nat, limit: nat)
    requires limit >= 1
    ensures |Range(items, offset, offset + limit - 1)| == ExpectedRows(|items|, offset, limit)
  {
  }

  lemma PageEntry<T>(items: seq<T>, offset: nat, limit: nat, i: nat)
    requires limit >= 1 && i < |Range(items, offset, offset + limit - 1)|
    ensures offset + i < |items| && Range(items, offset, offset + limit - 1)[i] == items[offset + i]
  {
  }

  /** The members of an undisturbed generation pass the reader's checks at every offset. */
  lemma PageAccepted(env: Env, g: string, rb: Rebuild, offset: nat, limit: nat)
    requires ReadsBack(env.rt) && Resolves(env.rt, env.ring, rb.signer) && limit >= 1
    ensures var items := ItemsOfRebuild(env, g, rb);
      AcceptPage(env.rt, env.ring, ContractOf(env, g, rb), Range(items, offset, offset + limit - 1), |items|, offset, limit).Some?
  {
    hide EncodeScore, AcceptRow, ReadsBack, Resolves, ContractOf, Range, ExpectedRows;
    var items := ItemsOfRebuild(env, g, rb);
    var page := Range(items, offset, offset + limit - 1);
    PageSize(items, offset, limit);
    forall i | 0 <= i < |page| ensures AcceptRow(env.rt, env.ring, ContractOf(env, g, rb), page[i], offset + i + 1).Some? {
      PageEntry(items, offset, limit, i);
      MemberAccepted(env, g, rb, offset + i);
    }
  }

  lemma PointsThere(env: Env, st: State, g: string)
    requires ReadsBack(env.rt) && RebuildInv(st) && UpToDate(env, st, g)
    ensures Normalized(env, PointerOf(st.redis, st.rebuilds[g].scope)) == Some(g)
  {
    assert GoodRebuild(st, g);
    var u: Uuid :| g == UuidText(u);
    assert env.rt.parseUuid(UuidText(u)) == Some(u);
  }

  lemma ThreeReads(env: Env, st: State, steps: seq<ReaderStep>) returns (r: Reader)
    requires |steps| == 3 && ReaderReady(st, steps[0])
    requires var st1 := st.(reader := NextReader(env, st, steps[0]));
      && ReaderReady(st1, steps[1])
      && ReaderReady(st.(reader := NextReader(env, st1, steps[1])), steps[2])
    ensures CanRead(env, st, steps) && AfterReads(env, st, steps) == r
    ensures var st1 := st.(reader := NextReader(env, st, steps[0]));
      r == NextReader(env, st.(reader := NextReader(env, st1, steps[1])), steps[2])
  {
    hide ReaderReady, NextReader, CanRead, AfterReads;
    var st1 := st.(reader := NextReader(env, st, steps[0]));
    var st2 := st.(reader := NextReader(env, st1, steps[1]));
    r := NextReader(env, st2, steps[2]);
    NoReads(env, st.(reader := r), steps[1..][1..][1..]);
    FirstRead(env, st2, steps[1..][1..]);
    FirstRead(env, st1, steps[1..]);
    FirstRead(env, st, steps);
  }

  lemma NoReads(env: Env, st: State, steps: seq<ReaderStep>)
    requires steps == []
    ensures CanRead(env, st, steps) && AfterReads(env, st, steps) == st.reader
  {
  }

  lemma FirstRead(env: Env, st: State, steps: seq<ReaderStep>)
    requires steps != [] && ReaderReady(st, steps[0])
    requires CanRead(env, st.(reader := NextReader(env, st, steps[0])), steps[1..])
    ensures CanRead(env, st, steps)
    ensures AfterReads(env, st, steps) == AfterReads(env, st.(reader := NextReader(env, st, steps[0])), steps[1..])
  {
    hide NextReader, ReaderReady;
  }

  lemma TwoReads(env: Env, st: State, steps: seq<ReaderStep>) returns (r: Reader)
    requires |steps| == 2 && ReaderReady(st, steps[0])
    requires ReaderReady(st.(reader := NextReader(env, st, steps[0])), steps[1])
    ensures CanRead(env, st, steps) && AfterReads(env, st, steps) == r
    ensures r == NextReader(env, st.(reader := NextReader(env, st, steps[0])), steps[1])
  {
    hide ReaderReady, NextReader, CanRead, AfterReads;
    var st1 := st.(reader := NextReader(env, st, steps[0]));
    r := NextReader(env, st1, steps[1]);
    NoReads(env, st.(reader := r), steps[1..][1..]);
    FirstRead(env, st1, steps[1..]);
    FirstRead(env, st, steps);
  }

  lemma OneRead(env: Env, st: State, step: ReaderStep) returns (r: Reader)
    requires ReaderReady(st, step)
    ensures CanRead(env, st, [step]) && AfterReads(env, st, [step]) == r == NextReader(env, st, step)
  {
    hide ReaderReady, NextReader, CanRead, AfterReads;
    r := NextReader(env, st, step);
    NoReads(env, st.(reader := r), [step][1..]);
    FirstRead(env, st, [step]);
  }

  lemma FindsGeneration(env: Env, st: State, g: string, offset: nat, limit: nat) returns (r: Reader)
    requires ReadsBack(env.rt) && LogInv(st) && RebuildInv(st) && UpToDate(env, st, g)
    requires st.reader.phase.Idle? && limit >= 1
    ensures var steps := Finding(st.rebuilds[g].scope, offset, limit); CanRead(env, st, steps) && AfterReads(env, st, steps) == r
    ensures r.phase.Pointed? && Trusting(env, st, g, r, offset, limit)
  {
    PointsThere(env, st, g);
    var scope := st.rebuilds[g].scope;
    assert Revision(st, scope) == |Rows(st, scope)|;
    hide UpToDate, Normalized, ReadsBack, LogInv, RebuildInv, UuidText;
    r := ThreeReads(env, st, Finding(scope, offset, limit));
  }

  /** The metadata and the cardinality are those of the counted rows. */
  lemma CardinalityPasses(env: Env, st: State, g: string, r: Reader, offset: nat, limit: nat)
    requires ReadsBack(env.rt) && LogInv(st) && Orderly(env, st) && UpToDate(env, st, g)
    requires Trusting(env, st, g, r, offset, limit)
    requires r.fields == Found(st.redis.metadata, KeyOf(g, st.rebuilds[g]), map[])
    ensures AfterCardinality(env, st.redis, r) == r.(phase := Verified, contract := ContractOf(env, g, st.rebuilds[g]))
  {
    var rb := st.rebuilds[g];
    NamedAndWhole(env, st, g);
    ItemsReadBack(env, st, g);
    assert |rb.scores| == rb.seen by { assert GoodRebuild(st, g); }
    hide Metadata, VerifyMetadata, Listing, ToSortedSet, ItemsOfRebuild, ReadsBack, Orderly, LogInv, Resolves, Rows,
         Current, UuidText;
    MetadataVerifies(env.rt, env.ring, rb.signer, ContractOf(env, g, rb), Wanted(r));
  }

  lemma RowsPass(env: Env, st: State, g: string, r: Reader, offset: nat, limit: nat)
    requires ReadsBack(env.rt) && LogInv(st) && Orderly(env, st) && UpToDate(env, st, g) && limit >= 1
    requires Trusting(env, st, g, r, offset, limit) && r.contract == ContractOf(env, g, st.rebuilds[g])
    ensures AfterRows(env, st.redis, r).phase.Served? && AfterRows(env, st.redis, r).fromRedis
  {
    hide Orderly, UpToDate, LogInv, ReadsBack, Resolves, AcceptPage, Listing, ToSortedSet, Range, ContractOf, Rows,
         ItemsOfRebuild, AfterRows;
    StoredItems(env, st, g);
    PageAccepted(env, g, st.rebuilds[g], offset, limit);
    PageServed(env, st.redis, r, ItemsOfRebuild(env, g, st.rebuilds[g]));
  }

  /** The members of an up-to-date generation are those of the rows of now. */
  lemma StoredItems(env: Env, st: State, g: string)
    requires LogInv(st) && Orderly(env, st) && UpToDate(env, st, g)
    ensures g in st.rebuilds && Resolves(env.rt, env.ring, st.rebuilds[g].signer)
    ensures var rb := st.rebuilds[g];
      var items := ItemsOfRebuild(env, g, rb);
      && Found(st.redis.members, KeyOf(g, rb), map[]) == ToSortedSet(items)
      && Listing(ToSortedSet(items)) == items && |items| == |Rows(st, rb.scope)|
  {
    hide StoreInv, PointerInv, PreviousInv, NamedInv, Listing, ToSortedSet, Resolves, Current, Rows, LogInv,
         ItemsOfRebuild, Metadata, ContractOf;
    NamedAndWhole(env, st, g);
    ItemsReadBack(env, st, g);
    SizeIsSeen(env, st, g);
  }

  lemma SizeIsSeen(env: Env, st: State, g: string)
    requires RebuildInv(st) && g in st.rebuilds
    ensures |ItemsOfRebuild(env, g, st.rebuilds[g])| == st.rebuilds[g].seen
  {
    hide EncodeScore, ContractOf;
    assert GoodRebuild(st, g);
  }

  lemma PageServed(env: Env, redis: Redis, r: Reader, items: seq<Item>)
    requires MembersAt(redis, r) == ToSortedSet(items) && Listing(ToSortedSet(items)) == items && |items| == r.count
    requires AcceptPage(env.rt, env.ring, r.contract, Range(items, r.offset, r.offset + r.limit - 1), r.count, r.offset,
                        r.limit).Some?
    ensures AfterRows(env, redis, r).phase.Served? && AfterRows(env, redis, r).fromRedis
  {
    hide AcceptPage, Range, Listing, ToSortedSet, MembersAt;
  }

  /** The reader has verified the metadata of generation `g`. */
  ghost predicate Trusts(env: Env, st: State, g: string, r: Reader, offset: nat, limit: nat)
    requires g in st.rebuilds
  {
    r.phase.Verified? && Trusting(env, st, g, r, offset, limit) && r.contract == ContractOf(env, g, st.rebuilds[g])
  }

  lemma VerifiesGeneration(env: Env, st: State, g: string, offset: nat, limit: nat) returns (r: Reader)
    requires ReadsBack(env.rt) && LogInv(st) && Orderly(env, st) && UpToDate(env, st, g)
    requires st.reader.phase.Pointed? && Trusting(env, st, g, st.reader, offset, limit)
    ensures CanRead(env, st, VERIFYING) && AfterReads(env, st, VERIFYING) == r
    ensures Trusts(env, st, g, r, offset, limit)
  {
    hide ReadsBack, Orderly, LogInv, AfterCardinality, AfterRows, AfterMember, RankRow, CanonicalRows, Normalized,
         MembersAt, Rows, Resolves, Current, ContractOf, CanRead, AfterReads, Revision;
    var described := NextReader(env, st, ReadMetadata);
    assert described == st.reader.(phase := Described,
                                   fields := Found(st.redis.metadata, KeyOf(g, st.rebuilds[g]), map[]));
    CardinalityPasses(env, st, g, described, offset, limit);
    r := TwoReads(env, st, VERIFYING);
  }

  lemma {:induction false} ReadsInTwo(env: Env, st: State, steps: seq<ReaderStep>, more: seq<ReaderStep>)
    requires CanRead(env, st, steps) && CanRead(env, st.(reader := AfterReads(env, st, steps)), more)
    ensures CanRead(env, st, steps + more)
    ensures AfterReads(env, st, steps + more) == AfterReads(env, st.(reader := AfterReads(env, st, steps)), more)
    decreases |steps|
  {
    hide NextReader, ReaderReady;
    if steps == [] {
      assert steps + more == more;
      assert st.(reader := st.reader) == st;
    } else {
      assert (steps + more)[1..] == steps[1..] + more;
      ReadsInTwo(env, st.(reader := NextReader(env, st, steps[0])), steps[1..], more);
    }
  }

  /** From an idle reader to the verified metadata of an up-to-date generation. */
  lemma QuietRequestTrusts(env: Env, st: State, g: string, offset: nat, limit: nat) returns (r: Reader)
    requires ReadsBack(env.rt) && LogInv(st) && Orderly(env, st) && UpToDate(env, st, g)
    requires st.reader.phase.Idle? && limit >= 1
    ensures var steps := Finding(st.rebuilds[g].scope, offset, limit) + VERIFYING;
      CanRead(env, st, steps) && AfterReads(env, st, steps) == r
    ensures Trusts(env, st, g, r, offset, limit)
  {
    hide AfterReads, CanRead, ReadsBack, NextReader, StoreInv, PointerInv, PreviousInv, NamedInv, LogInv, RebuildInv;
    var found := FindsGeneration(env, st, g, offset, limit);
    var st' := st.(reader := found);
    OnlyTheReader(env, st, st', g);
    r := VerifiesGeneration(env, st', g, offset, limit);
    ReadsInTwo(env, st, Finding(st.rebuilds[g].scope, offset, limit), VERIFYING);
  }

  /** The six statements of a request, one after the other, end in a page from Redis. */
  ghost predicate ServesFromRedis(env: Env, st: State, scope: Scope, offset: nat, limit: nat) {
    var steps := Finding(scope, offset, limit) + VERIFYING + [ReadRows];
    && CanRead(env, st, steps)
    && AfterReads(env, st, steps).phase.Served? && AfterReads(env, st, steps).fromRedis
  }

  /** In every run without an intruder, an undisturbed request that meets an up-to-date generation is answered from
      Redis, at every offset and limit. */
  lemma UpToDateGenerationServes(env: Env, run: seq<State>, n: nat, g: string, offset: nat, limit: nat)
    requires ReadsBack(env.rt) && CollisionFree(env.rt) && HonestRun(env, run) && n < |run| && limit >= 1
    ensures run[n].reader.phase.Idle? && UpToDate(env, run[n], g) ==>
      ServesFromRedis(env, run[n], run[n].rebuilds[g].scope, offset, limit)
  {
    hide ReadsBack, CollisionFree, ServesFromRedis, UpToDate, Orderly, LogInv, RebuildInv, SignedInv, ReaderInv,
         NoForgery, IsRun;
    RunIsSafe(env, run, n);
    RunIsOrderly(env, run, n);
    if run[n].reader.phase.Idle? && UpToDate(env, run[n], g) { QuietRequestIsServed(env, run[n], g, offset, limit); }
  }

  lemma QuietRequestIsServed(env: Env, st: State, g: string, offset: nat, limit: nat)
    requires ReadsBack(env.rt) && LogInv(st) && Orderly(env, st) && UpToDate(env, st, g)
    requires st.reader.phase.Idle? && limit >= 1
    ensures ServesFromRedis(env, st, st.rebuilds[g].scope, offset, limit)
  {
    hide AfterReads, CanRead, ReadsBack, AfterRows, StoreInv, PointerInv, PreviousInv, NamedInv, LogInv, RebuildInv;
    var r := QuietRequestTrusts(env, st, g, offset, limit);
    var st' := st.(reader := r);
    OnlyTheReader(env, st, st', g);
    RowsPass(env, st', g, r, offset, limit);
    var served := OneRead(env, st', ReadRows);
    ReadsInTwo(env, st, Finding(st.rebuilds[g].scope, offset, limit) + VERIFYING, [ReadRows]);
  }

  lemma OnlyTheReader(env: Env, st: State, st': State, g: string)
    requires Orderly(env, st) && LogInv(st) && UpToDate(env, st, g) && st' == st.(reader := st'.reader)
    ensures Orderly(env, st') && LogInv(st') && UpToDate(env, st', g)
  {
    hide StoreInv, PointerInv, PreviousInv, NamedInv;
    SameTables(st, st');
    hide LogInv, RebuildInv;
    QuietStepIsOrderly(env, st, st');
  }

  lemma SameTables(st: State, st': State)
    requires LogInv(st) && RebuildInv(st) && st' == st.(reader := st'.reader)
    ensures LogInv(st') && RebuildInv(st')
  {
    forall scope ensures ValidRows(Rows(st', scope)) && Revision(st', scope) == |Rows(st', scope)| {
      assert ValidRows(Rows(st, scope)) && Revision(st, scope) == |Rows(st, scope)|;
    }
    forall h | h in st'.rebuilds ensures GoodRebuild(st', h) { assert GoodRebuild(st, h); }
  }

  // ---------- a player's rank ----------

  /** The statements that read a player's rank once the generation is trusted: a player without a member there
      is given up at once. */
  function Ranking(player: Uuid, listed: bool): seq<ReaderStep> {
    if listed then [ReadMember(player), ReadScore, ReadRank] else [ReadMember(player)]
  }

  /** The player's canonical rank on the board of now, as the reader reports it. */
  ghost function RankNow(st: State, scope: Scope, player: Uuid): Option<Row>
    requires ValidRows(Rows(st, scope))
  {
    ValidPrefix(Rows(st, scope), |Rows(st, scope)|);
    match Board.PlayerRank(BoardAt(Rows(st, scope), |Rows(st, scope)|), player)
    case Some(best) => Some(RowOf(best.0, best.1))
    case None => None
  }

  lemma PlayersWhole(env: Env, st: State, g: string)
    requires Orderly(env, st) && UpToDate(env, st, g)
    ensures var rb := st.rebuilds[g];
      Found(st.redis.players, KeyOf(g, rb), map[]) == PlayerMembers(ItemsOfRebuild(env, g, rb), rb.scores)
  {
    hide PreviousInv, RebuildInv, Metadata, EncodeScore, ToSortedSet;
    var rb := st.rebuilds[g];
    var key := KeyOf(g, rb);
    assert Signer(st, key) && key !in st.redis.expiring;
    assert AsWritten(env, st, key) && WholeOrAbsent(st, key);
    if rb.scores == [] { assert ItemsOfRebuild(env, g, rb) == []; }
  }

  lemma ItemsDistinct(env: Env, st: State, g: string)
    requires LogInv(st) && RebuildInv(st) && g in st.rebuilds
    ensures DistinctMembers(ItemsOfRebuild(env, g, st.rebuilds[g]))
  {
    hide EncodeScore, ContractOf;
    assert GoodRebuild(st, g);
    var rb := st.rebuilds[g];
    EncodedIsDistinct(env.rt, rb.signer, ContractOf(env, g, rb), BoardAt(Rows(st, rb.scope), rb.seen));
  }

  lemma PlaceOfMember(items: seq<Item>, i: nat)
    requires DistinctMembers(items) && i < |items|
    ensures PlaceIn(items, items[i].member) == Some(i)
  {
    var k :| 0 <= k < |items| && items[k].member == items[i].member;
  }

  lemma RankAccepted(env: Env, g: string, rb: Rebuild, r: Reader, i: nat, items: seq<Item>)
    requires ReadsBack(env.rt) && Resolves(env.rt, env.ring, rb.signer) && i < |rb.scores|
    requires items == ItemsOfRebuild(env, g, rb) && DistinctMembers(items)
    requires r.contract == ContractOf(env, g, rb) && r.member == items[i].member && r.score == Some(items[i].score)
    requires r.player == rb.scores[i].player
    ensures RankRow(env, r, items) == Some(RowOf(rb.scores[i], i + 1))
  {
    hide Member, ParseMember, ReadsBack, UuidText, PlaceIn, DistinctMembers;
    PlaceOfMember(items, i);
    RowIsCanonical(rb.scores[i], i + 1);
    MemberRoundTrip(env.rt, env.ring, rb.signer, r.contract, RowOf(rb.scores[i], i + 1));
  }

  lemma MemberRead(env: Env, st: State, g: string, r: Reader, player: Uuid, j: nat) returns (i: nat)
    requires LogInv(st) && Orderly(env, st) && UpToDate(env, st, g) && r.scope == st.rebuilds[g].scope
    requires r.generation == g
    requires j < |st.rebuilds[g].scores| && st.rebuilds[g].scores[j].player == player
    ensures var rb := st.rebuilds[g];
      var items := ItemsOfRebuild(env, g, rb);
      && DistinctMembers(items) && i < |items| && i < |rb.scores| && rb.scores[i].player == player
      && Board.FirstOfPlayer(rb.scores, i)
      && AfterMember(st.redis, r, player) == r.(phase := HasMember, player := player, member := items[i].member)
      && MembersAt(st.redis, r) == ToSortedSet(items) && Listing(MembersAt(st.redis, r)) == items
      && items[i].member in ToSortedSet(items) && ToSortedSet(items)[items[i].member] == items[i].score
  {
    hide StoreInv, PointerInv, PreviousInv, Resolves, Current, Metadata, EncodeScore, ContractOf, ToSortedSet,
         PlayerMembers, Listing, UuidText, DistinctMembers, Rows, LogInv;
    var rb := st.rebuilds[g];
    var items := ItemsOfRebuild(env, g, rb);
    NamedAndWhole(env, st, g);
    PlayersWhole(env, st, g);
    ItemsReadBack(env, st, g);
    ItemsDistinct(env, st, g);
    hide Orderly;
    PlayerMembersCover(items, rb.scores, j);
    i := PlayerMembersFirst(items, rb.scores, player);
    StoredMember(items, i);
  }

  /** The statements of a rank request, one after the other, end in the player's canonical rank. */
  ghost predicate RankedByRedis(env: Env, st: State, scope: Scope, player: Uuid)
    requires ValidRows(Rows(st, scope))
  {
    var best := RankNow(st, scope, player);
    var steps := Finding(scope, 0, 1) + VERIFYING + Ranking(player, best.Some?);
    CanRead(env, st, steps) && AfterReads(env, st, steps).phase.Ranked? && AfterReads(env, st, steps).rank == best
  }

  /** In every run without an intruder, an undisturbed rank request that meets an up-to-date generation gets from
      Redis the player's canonical rank, and none exactly if the player has no entry. */
  lemma UpToDateGenerationRanks(env: Env, run: seq<State>, n: nat, g: string, player: Uuid)
    requires ReadsBack(env.rt) && CollisionFree(env.rt) && HonestRun(env, run) && n < |run|
    ensures run[n].reader.phase.Idle? && UpToDate(env, run[n], g) ==>
      && ValidRows(Rows(run[n], run[n].rebuilds[g].scope))
      && RankedByRedis(env, run[n], run[n].rebuilds[g].scope, player)
  {
    hide ReadsBack, CollisionFree, RankedByRedis, UpToDate, Orderly, RebuildInv, SignedInv, ReaderInv, NoForgery,
         IsRun;
    RunIsSafe(env, run, n);
    RunIsOrderly(env, run, n);
    if run[n].reader.phase.Idle? && UpToDate(env, run[n], g) { QuietPlayerIsRanked(env, run[n], g, player); }
  }

  lemma QuietPlayerIsRanked(env: Env, st: State, g: string, player: Uuid)
    requires ReadsBack(env.rt) && LogInv(st) && Orderly(env, st) && UpToDate(env, st, g) && st.reader.phase.Idle?
    requires ValidRows(Rows(st, st.rebuilds[g].scope))
    ensures RankedByRedis(env, st, st.rebuilds[g].scope, player)
  {
    hide AfterReads, CanRead, ReadsBack, NextReader, ReaderReady, StoreInv, PointerInv, PreviousInv, NamedInv, LogInv,
         RebuildInv, RankNow, ValidRows;
    var r := QuietRequestTrusts(env, st, g, 0, 1);
    var st' := st.(reader := r);
    OnlyTheReader(env, st, st', g);
    var ranked := RanksGeneration(env, st', g, player);
    SameRankNow(st, st', st.rebuilds[g].scope, player);
    ReadsInTwo(env, st, Finding(st.rebuilds[g].scope, 0, 1) + VERIFYING,
               Ranking(player, RankNow(st, st.rebuilds[g].scope, player).Some?));
  }

  lemma SameRankNow(st: State, st': State, scope: Scope, player: Uuid)
    requires ValidRows(Rows(st, scope)) && st'.log == st.log
    ensures RankNow(st', scope, player) == RankNow(st, scope, player)
  {
  }

  /** A trusting reader finds the canonical rank. */
  lemma RanksGeneration(env: Env, st: State, g: string, player: Uuid) returns (r: Reader)
    requires ReadsBack(env.rt) && LogInv(st) && Orderly(env, st) && UpToDate(env, st, g)
    requires Trusts(env, st, g, st.reader, 0, 1) && ValidRows(Rows(st, st.rebuilds[g].scope))
    ensures var steps := Ranking(player, RankNow(st, st.rebuilds[g].scope, player).Some?);
      CanRead(env, st, steps) && AfterReads(env, st, steps) == r
    ensures r.phase.Ranked? && r.rank == RankNow(st, st.rebuilds[g].scope, player)
  {
    hide Orderly, LogInv, ReadsBack, Resolves, RankNow, CanRead, AfterReads, NextReader, ReaderReady, ValidRows;
    if j: nat :| j < |st.rebuilds[g].scores| && st.rebuilds[g].scores[j].player == player {
      r := ListedIsRanked(env, st, g, player, j);
    } else {
      r := UnlistedIsGivenUp(env, st, g, player);
    }
  }

  lemma UnlistedIsGivenUp(env: Env, st: State, g: string, player: Uuid) returns (r: Reader)
    requires Orderly(env, st) && UpToDate(env, st, g)
    requires Trusts(env, st, g, st.reader, 0, 1) && ValidRows(Rows(st, st.rebuilds[g].scope))
    requires forall j | 0 <= j < |st.rebuilds[g].scores| :: st.rebuilds[g].scores[j].player != player
    ensures RankNow(st, st.rebuilds[g].scope, player) == None
    ensures CanRead(env, st, Ranking(player, false)) && AfterReads(env, st, Ranking(player, false)) == r
    ensures r.phase.Ranked? && r.rank == None
  {
    hide RebuildInv, PointerInv, PreviousInv, StoreInv, NamedInv, CanRead, AfterReads, ContractOf, UuidText, Rows,
         RankNow, PlayerMembers, ItemsOfRebuild, ValidRows, Current, Resolves;
    PlayersWhole(env, st, g);
    UnlistedHasNoMember(env, g, st.rebuilds[g], player);
    UnlistedHasNoRank(env, st, g, player);
    r := GivenUp(env, st, player);
  }

  lemma GivenUp(env: Env, st: State, player: Uuid) returns (r: Reader)
    requires st.reader.phase.Verified?
    requires UuidText(player) !in Found(st.redis.players, Key(st.reader.scope, st.reader.generation), map[])
    ensures CanRead(env, st, Ranking(player, false)) && AfterReads(env, st, Ranking(player, false)) == r
    ensures r.phase.Ranked? && r.rank == None
  {
    hide CanRead, AfterReads, UuidText;
    r := OneRead(env, st, ReadMember(player));
  }

  lemma UnlistedHasNoMember(env: Env, g: string, rb: Rebuild, player: Uuid)
    requires forall j | 0 <= j < |rb.scores| :: rb.scores[j].player != player
    ensures UuidText(player) !in PlayerMembers(ItemsOfRebuild(env, g, rb), rb.scores)
  {
    hide EncodeScore, ContractOf, UuidText, PlayerMembers;
    if UuidText(player) in PlayerMembers(ItemsOfRebuild(env, g, rb), rb.scores) {
      var i := PlayerMembersFirst(ItemsOfRebuild(env, g, rb), rb.scores, player);
    }
  }

  /** The scores of an up-to-date generation are the board of now. */
  lemma ScoresAreTheBoard(env: Env, st: State, g: string)
    requires RebuildInv(st) && UpToDate(env, st, g)
    ensures var board := BoardAt(Rows(st, st.rebuilds[g].scope), |Rows(st, st.rebuilds[g].scope)|);
      Board.ValidBoard(board) && st.rebuilds[g].scores == Board.Canonical(board)
  {
    assert GoodRebuild(st, g);
  }

  lemma UnlistedHasNoRank(env: Env, st: State, g: string, player: Uuid)
    requires RebuildInv(st) && UpToDate(env, st, g) && ValidRows(Rows(st, st.rebuilds[g].scope))
    requires forall j | 0 <= j < |st.rebuilds[g].scores| :: st.rebuilds[g].scores[j].player != player
    ensures RankNow(st, st.rebuilds[g].scope, player) == None
  {
    ScoresAreTheBoard(env, st, g);
    var rows := Rows(st, st.rebuilds[g].scope);
    var board := BoardAt(rows, |rows|);
    Board.UnrankedIsAbsent(board, player);
    forall s | s in board ensures s.player != player { var k := Board.PlaceOf(board, s); }
  }

  lemma ListedIsRanked(env: Env, st: State, g: string, player: Uuid, j: nat) returns (r: Reader)
    requires ReadsBack(env.rt) && LogInv(st) && Orderly(env, st) && UpToDate(env, st, g)
    requires Trusts(env, st, g, st.reader, 0, 1) && ValidRows(Rows(st, st.rebuilds[g].scope))
    requires j < |st.rebuilds[g].scores| && st.rebuilds[g].scores[j].player == player
    ensures RankNow(st, st.rebuilds[g].scope, player).Some?
    ensures CanRead(env, st, Ranking(player, true)) && AfterReads(env, st, Ranking(player, true)) == r
    ensures r.phase.Ranked? && r.rank == RankNow(st, st.rebuilds[g].scope, player)
  {
    hide Orderly, ReadsBack, LogInv, Resolves, Current, ContractOf, ToSortedSet, Listing, RankRow, CanRead,
         AfterReads, Normalized, AfterCardinality, AfterRows, AfterMember, CanonicalRows, DistinctMembers, Rows,
         MembersAt, ItemsOfRebuild, RankNow, ValidRows, RowOf;
    var rb := st.rebuilds[g];
    var items := ItemsOfRebuild(env, g, rb);
    var i := MemberRead(env, st, g, st.reader, player, j);
    ListedHasRank(env, st, g, i);
    var r1 := st.reader.(phase := HasMember, player := player, member := items[i].member);
    SameMembers(st.redis, st.reader, r1);
    var r2 := r1.(phase := HasScore, score := Some(items[i].score));
    SameMembers(st.redis, st.reader, r2);
    RankAccepted(env, g, rb, r2, i, items);
    r := ThreeReads(env, st, Ranking(player, true));
  }

  lemma ListedHasRank(env: Env, st: State, g: string, i: nat)
    requires Orderly(env, st) && UpToDate(env, st, g) && ValidRows(Rows(st, st.rebuilds[g].scope))
    requires i < |st.rebuilds[g].scores| && Board.FirstOfPlayer(st.rebuilds[g].scores, i)
    ensures var s := st.rebuilds[g].scores[i];
      RankNow(st, st.rebuilds[g].scope, s.player) == Some(RowOf(s, i + 1))
  {
    ScoresAreTheBoard(env, st, g);
    var rows := Rows(st, st.rebuilds[g].scope);
    Board.PlayerRankIsFirstEntry(BoardAt(rows, |rows|), i);
  }

  lemma SameMembers(redis: Redis, r: Reader, r': Reader)
    requires r'.scope == r.scope && r'.generation == r.generation
    ensures MembersAt(redis, r') == MembersAt(redis, r)
  {
  }

  lemma StoredMember(items: seq<Item>, i: nat)
    requires DistinctMembers(items) && i < |items|
    ensures items[i].member in ToSortedSet(items) && ToSortedSet(items)[items[i].member] == items[i].score
  {
    ToSortedSetHolds(items);
  }
}
