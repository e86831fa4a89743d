/** What a reader has looked at, and in which order, before it trusts an answer from Redis. */
module ReaderChecks {
  import opened Text
  import opened Sorting
  import opened Integrity
  import opened Projection
  import opened CacheProtocol
  import opened CacheSafety
  import Board

  /** How many of the four looks that come before the answer lie behind the reader. */
  function Level(r: Reader): nat {
    match r.phase
    case Revised => 1
    case Pointed => 2
    case Described => 3
    case Verified => 4
    case HasMember => 4
    case HasScore => 4
    case Ranked => 4
    case Served => if r.fromRedis then 4 else 0
    case _ => 0
  }

  // ---------- the four looks ----------

  /** The generation is the canonical text of the UUID that the scope's Redis pointer spells. */
  ghost predicate PointedTo(env: Env, at: State, r: Reader) {
    r.scope in at.redis.pointer && Spells(env.rt, at.redis.pointer[r.scope], r.generation)
  }

  ghost predicate Fetched(at: State, r: Reader) {
    r.fields == if Key(r.scope, r.generation) in at.redis.metadata then at.redis.metadata[Key(r.scope, r.generation)] else map[]
  }

  /** The metadata is signed for the reader's scope and generation, the revision it looked up and the rows it counted. */
  ghost predicate SaysSo(env: Env, r: Reader) {
    var want := Expectation(r.scope.gameKey, r.scope.periodStart, r.generation, r.revision, r.count);
    MetadataSays(env.rt, env.ring, r.fields, want) && ContractSays(r.contract, r.fields, want)
  }

  /** The sorted set has as many members as the reader counted rows. */
  ghost predicate Complete(at: State, r: Reader) {
    r.count == if Key(r.scope, r.generation) in at.redis.members then |at.redis.members[Key(r.scope, r.generation)]| else 0
  }

  ghost predicate SameSight(r: Reader, r': Reader) {
    && r'.scope == r.scope && r'.count == r.count && r'.revision == r.revision && r'.generation == r.generation
    && r'.fields == r.fields && r'.contract == r.contract
  }

  /** Each statement adds its own look to those before it, keeps them, or gives the answer up. */
  ghost predicate Adds(env: Env, st: State, r: Reader, r': Reader) {
    || Level(r') == 0
    || (Level(r') == Level(r) && SameSight(r, r'))
    || (r.phase.Counted? && r'.phase.Revised? && r'.scope == r.scope && r'.count == r.count
        && r'.revision == Revision(st, r.scope))
    || (r.phase.Revised? && r'.phase.Pointed? && SameSight(r, r'.(generation := r.generation)) && PointedTo(env, st, r'))
    || (r.phase.Pointed? && r'.phase.Described? && SameSight(r, r'.(fields := r.fields)) && Fetched(st, r'))
    || (r.phase.Described? && r'.phase.Verified? && SameSight(r, r'.(contract := r.contract)) && SaysSo(env, r') && Complete(st, r'))
  }

  lemma CardinalityAdds(env: Env, st: State)
    requires ReaderReady(st, ReadCardinality)
    ensures Adds(env, st, st.reader, NextReader(env, st, ReadCardinality))
  {
    hide VerifyMetadata, MetadataSays, ContractSays, PointedTo, Fetched, Revision, UuidText;
    var r := st.reader;
    AcceptedMetadata(env.rt, env.ring, r.fields, Expectation(r.scope.gameKey, r.scope.periodStart, r.generation, r.revision, r.count));
  }

  lemma PointerAdds(env: Env, st: State)
    requires ReaderReady(st, FollowPointer)
    ensures Adds(env, st, st.reader, NextReader(env, st, FollowPointer))
  {
    hide UuidText, SaysSo, Complete, Fetched, Revision;
  }

  lemma LookupAdds(env: Env, st: State, read: ReaderStep)
    requires ReaderReady(st, read) && (read.CheckRevision? || read.ReadMetadata?)
    ensures Adds(env, st, st.reader, NextReader(env, st, read))
  {
    hide Revision, UuidText, PointedTo, SaysSo, Complete;
  }

  /** The other statements see nothing new. */
  lemma OthersKeepSight(env: Env, st: State, read: ReaderStep)
    requires ReaderReady(st, read)
    requires !read.CheckRevision? && !read.FollowPointer? && !read.ReadMetadata? && !read.ReadCardinality?
    ensures var r, r' := st.reader, NextReader(env, st, read);
      Level(r') == 0 || (Level(r') == Level(r) && SameSight(r, r'))
  {
    hide AcceptPage, PageItems, CanonicalRows, RankRow, Revision, Rows, UuidText, MembersAt, Normalized,
         AfterCardinality, Board.ValidBoard, Listing;
  }

  lemma ReadAdds(env: Env, st: State, read: ReaderStep)
    requires ReaderReady(st, read)
    ensures Adds(env, st, st.reader, NextReader(env, st, read))
  {
    hide NextReader, Adds, Level, SameSight;
    match read
    case CheckRevision => LookupAdds(env, st, read);
    case FollowPointer => PointerAdds(env, st);
    case ReadMetadata => LookupAdds(env, st, read);
    case ReadCardinality => CardinalityAdds(env, st);
    case _ =>
      OthersKeepSight(env, st, read);
      QuietAdds(env, st, st.reader, NextReader(env, st, read));
  }

  lemma QuietAdds(env: Env, st: State, r: Reader, r': Reader)
    requires Level(r') == 0 || (Level(r') == Level(r) && SameSight(r, r'))
    ensures Adds(env, st, r, r')
  {
    hide Level, SameSight, PointedTo, Fetched, SaysSo, Complete, Revision;
  }

  lemma StepAdds(env: Env, st: State, ev: Event)
    requires Enabled(env, st, ev)
    ensures Adds(env, st, st.reader, Apply(env, st, ev).reader)
  {
    if ev.Reads? { ReadAdds(env, st, ev.read); }
    hide NextReader, ReaderReady, NextRebuild, NextRedis, Signatures, Moved, NoForgery, RebuildReady, UuidText,
         Revision, PointedTo, Fetched, SaysSo, Complete;
  }

  // ---------- over a run ----------

  /** The places in the run at which the reader looked. */
  datatype Looks = Looks(revision: nat, pointer: nat, metadata: nat, members: nat)

  predicate Turns(run: seq<State>, k: nat, from: ReaderPhase, to: ReaderPhase) {
    k + 1 < |run| && run[k].reader.phase == from && run[k + 1].reader.phase == to
  }

  /** What the reader holds at `n` is what it saw at its looks, which came one after the other since `i`. */
  ghost predicate Saw(env: Env, run: seq<State>, i: nat, n: nat, looks: Looks)
    requires n < |run|
  {
    var r := run[n].reader;
    && (Level(r) >= 1 ==>
          && i < looks.revision < n && Turns(run, looks.revision, Counted, Revised)
          && r.revision == Revision(run[looks.revision], r.scope))
    && (Level(r) >= 2 ==>
          && looks.revision < looks.pointer < n && Turns(run, looks.pointer, Revised, Pointed)
          && PointedTo(env, run[looks.pointer], r))
    && (Level(r) >= 3 ==>
          && looks.pointer < looks.metadata < n && Turns(run, looks.metadata, Pointed, ReaderPhase.Described)
          && Fetched(run[looks.metadata], r))
    && (Level(r) >= 4 ==>
          && looks.metadata < looks.members < n && Turns(run, looks.members, ReaderPhase.Described, Verified)
          && SaysSo(env, r) && Complete(run[looks.members], r))
  }

  lemma LooksAgain(env: Env, run: seq<State>, i: nat, n: nat, looks: Looks) returns (more: Looks)
    requires i < n && n + 1 < |run| && Saw(env, run, i, n, looks)
    requires Adds(env, run[n], run[n].reader, run[n + 1].reader)
    ensures Saw(env, run, i, n + 1, more)
  {
    hide Revision, MetadataSays, ContractSays, Spells;
    var r, r' := run[n].reader, run[n + 1].reader;
    more := if Level(r') == Level(r) then looks
            else match Level(r')
              case 1 => looks.(revision := n)
              case 2 => looks.(pointer := n)
              case 3 => looks.(metadata := n)
              case 4 => looks.(members := n)
              case _ => looks;
  }

  lemma {:induction false} LooksOf(env: Env, run: seq<State>, i: nat, n: nat) returns (looks: Looks)
    requires IsRun(env, run) && i + 1 <= n < |run| && run[i + 1].reader.phase.Counted?
    ensures Saw(env, run, i, n, looks)
  {
    hide Adds, Enabled, Apply, Initial;
    looks := Looks(0, 0, 0, 0);
    if n > i + 1 {
      looks := LooksOf(env, run, i, n - 1);
      assert Goes(env, run, n - 1);
      var ev :| Steps(env, run[n - 1], ev, run[n]);
      StepAdds(env, run[n - 1], ev);
      hide Saw, IsRun;
      looks := LooksAgain(env, run, i, n - 1, looks);
    } else {
      hide IsRun, Revision, PointedTo, Fetched, SaysSo, Complete;
    }
  }

  /** In every run, a page or a rank is taken from Redis only after the reader, having counted the rows at `i`, has looked one
      after the other at the revision of its scope, at the pointer, at the metadata of the generation that it spells, and at
      the number of members; and only if the metadata is signed for exactly the revision and the count, and the members are as
      many. */
  lemma AnswersWereChecked(env: Env, run: seq<State>, i: nat, j: nat) returns (looks: Looks)
    requires IsRun(env, run) && i + 1 <= j < |run|
    requires run[i].reader.phase.Idle? && run[i + 1].reader.phase.Counted?
    requires (run[j].reader.phase.Served? && run[j].reader.fromRedis) || run[j].reader.phase.Ranked?
    ensures i < looks.revision < looks.pointer < looks.metadata < looks.members < j
    ensures Turns(run, looks.revision, Counted, Revised) && Turns(run, looks.pointer, Revised, Pointed)
    ensures Turns(run, looks.metadata, Pointed, ReaderPhase.Described) && Turns(run, looks.members, ReaderPhase.Described, Verified)
    ensures var r := run[j].reader;
      && r.scope == run[i + 1].reader.scope && r.count == |Rows(run[i], r.scope)|
      && r.revision == Revision(run[looks.revision], r.scope) && PointedTo(env, run[looks.pointer], r)
      && Fetched(run[looks.metadata], r) && SaysSo(env, r) && Complete(run[looks.members], r)
  {
    hide Revision, PointedTo, Fetched, SaysSo, Complete, Rows, Steps, Initial;
    looks := LooksOf(env, run, i, j);
    RunKeepsRequest(env, run, i + 1, j, run[i + 1].reader.scope);
    assert Goes(env, run, i);
    var ev :| Steps(env, run[i], ev, run[i + 1]);
    hide IsRun;
    Counting(env, run[i], ev, run[i + 1]);
  }

  /** A rank is taken only from a member that says it, for the player asked for, and that stands at that very place of the sorted
      set when its place is asked for. */
  lemma RankStandsThere(env: Env, st: State)
    requires ReaderReady(st, ReadRank)
    ensures var r, answer := st.reader, NextReader(env, st, ReadRank).rank;
      answer.Some? ==>
        && r.score.Some? && MemberSays(env.rt, env.ring, r.contract, Split(r.member, 5), r.score.value, answer.value)
        && answer.value.playerId == UuidText(r.player)
        && var key := Key(r.scope, r.generation);
        key in st.redis.members
        && var items := Listing(st.redis.members[key]);
        1 <= answer.value.rank <= |items| && items[answer.value.rank - 1].member == r.member
  {
    hide ParseMember, MemberSays, Split, UuidText, ItemBefore;
    var r, answer := st.reader, NextReader(env, st, ReadRank).rank;
    if answer.Some? { AcceptedMember(env.rt, env.ring, r.contract, r.member, r.score.value, answer.value); }
    EmptyListing();
  }

  lemma EmptyListing()
    ensures |Listing(map[])| == 0
  {
    assert Items(map[]) == {};
  }

  // ---------- what a rebuild reads and publishes ----------

  /** What a rebuild took for the previous generation at step `k`, when it began. */
  ghost predicate BeganAt(run: seq<State>, k: nat, n: nat, g: string) {
    && k < n < |run| && g !in run[k].rebuilds && g in run[n].rebuilds
    && var rb := run[n].rebuilds[g];
    rb.previous == if rb.scope in run[k].redis.pointer then Some(run[k].redis.pointer[rb.scope]) else None
  }

  lemma StepKeepsBeginning(env: Env, st: State, ev: Event, g: string)
    requires Enabled(env, st, ev) && g in Apply(env, st, ev).rebuilds
    ensures var rb' := Apply(env, st, ev).rebuilds[g];
      if g in st.rebuilds then rb'.previous == st.rebuilds[g].previous && rb'.scope == st.rebuilds[g].scope
      else rb'.previous == if rb'.scope in st.redis.pointer then Some(st.redis.pointer[rb'.scope]) else None
  {
    hide NextReader, ReaderReady, NextRedis, Signatures, Moved, NoForgery, RebuildReady, UuidText, Board.Canonical,
         Insertable;
  }

  /** In every run, the generation that a rebuild goes on to retire is the one that the Redis pointer held when it began. */
  lemma {:induction false} RebuildBegan(env: Env, run: seq<State>, n: nat, g: string) returns (k: nat)
    requires IsRun(env, run) && n < |run| && g in run[n].rebuilds
    ensures BeganAt(run, k, n, g)
  {
    hide Enabled, Apply;
    k := 0;
    if n > 0 {
      assert Goes(env, run, n - 1);
      var ev :| Steps(env, run[n - 1], ev, run[n]);
      StepKeepsBeginning(env, run[n - 1], ev, g);
      if g in run[n - 1].rebuilds { k := RebuildBegan(env, run, n - 1, g); } else { k := n - 1; }
    }
  }


  lemma WrittenMetadata(env: Env, redis: Redis, g: string, rb: Rebuild)
    requires Key(rb.scope, g) !in redis.metadata
    ensures Written(env, redis, g, rb).pointer == redis.pointer[rb.scope := g]
    ensures Written(env, redis, g, rb).metadata
         == redis.metadata[Key(rb.scope, g) := Metadata(env.rt, rb.signer, ContractOf(env, g, rb))]
  {
    hide Metadata, Encode, PlayerMembers, ToSortedSet;
    var fields := Metadata(env.rt, rb.signer, ContractOf(env, g, rb));
    assert map[] + fields == fields;
  }

  /** On an unused generation id, the metadata that a rebuild publishes vouches for exactly its scope, its generation, the
      revision that it read and the scores that it wrote; the Redis pointer holds the generation. */
  lemma PublishedSays(env: Env, redis: Redis, g: string, rb: Rebuild, want: Expectation)
    requires ReadsBack(env.rt) && Resolves(env.rt, env.ring, rb.signer) && Key(rb.scope, g) !in redis.metadata
    ensures var redis', key := Written(env, redis, g, rb), Key(rb.scope, g);
      && redis'.pointer == redis.pointer[rb.scope := g] && redis'.metadata.Keys == redis.metadata.Keys + {key}
      && (MetadataSays(env.rt, env.ring, redis'.metadata[key], want)
          <==> want == Expectation(rb.scope.gameKey, rb.scope.periodStart, g, rb.revision, |rb.scores|))
  {
    var contract := ContractOf(env, g, rb);
    var fields := Metadata(env.rt, rb.signer, contract);
    MetadataVerifies(env.rt, env.ring, rb.signer, contract, want);
    AcceptedMetadata(env.rt, env.ring, fields, want);
    hide Metadata, MetadataSays, VerifyMetadata, ReadsBack, Resolves, Written;
    WrittenMetadata(env, redis, g, rb);
  }

  lemma PublishTouches(env: Env, redis: Redis, g: string, rb: Rebuild)
    ensures var redis', key := Written(env, redis, g, rb), Key(rb.scope, g);
      && redis'.pointer == redis.pointer[rb.scope := g] && redis'.expiring == redis.expiring
      && redis'.metadata - {key} == redis.metadata - {key} && key in redis'.metadata
      && redis'.members - {key} == redis.members - {key} && redis'.players - {key} == redis.players - {key}
      && (rb.scores != [] ==> key in redis'.members && key in redis'.players)
  {
    hide Metadata, EncodeScore, PlayerMembers, ToSortedSet, UuidText, ContractOf, Found;
  }

  /** What the commands of a rebuild touch: publishing its own three keys and the pointer of its scope, retiring the expiry of
      the other generation that the Redis pointer spelled when it began, and a clean-up its own three keys but never the pointer. */
  lemma RebuildTouches(env: Env, redis: Redis, g: string, rb: Rebuild, step: RebuildStep)
    ensures var redis', key := NextRedis(env, redis, g, rb, step), Key(rb.scope, g);
      match step
      case Publish(true, _) =>
        && redis'.pointer == redis.pointer[rb.scope := g] && redis'.expiring == redis.expiring
        && redis'.metadata - {key} == redis.metadata - {key} && key in redis'.metadata
        && redis'.members - {key} == redis.members - {key} && redis'.players - {key} == redis.players - {key}
        && (rb.scores != [] ==> key in redis'.members && key in redis'.players)
      case ExpirePrevious(true, _) =>
        && redis' == redis.(expiring := redis'.expiring)
        && forall k :: k in redis'.expiring <==>
             || k in redis.expiring
             || (k.scope == rb.scope && k.generation != g && rb.previous.Some? && Spells(env.rt, rb.previous.value, k.generation))
      case Fail(true) =>
        redis' == Redis(redis.pointer, redis.metadata - {key}, redis.members - {key}, redis.players - {key}, redis.expiring - {key})
      case _ => redis' == redis
  {
    hide Written, UuidText;
    if step.Publish? { PublishTouches(env, redis, g, rb); }
  }
}
