/** Score inserts, any number of rebuilds, a reader and an intruder, interleaved one statement or command
    at a time over one PostgreSQL table and one Redis server.

    Each SQL statement sees what is committed when it runs (READ COMMITTED). The intruder may overwrite all
    of Redis between any two steps, as long as nothing it leaves there carries a signature that was never
    made. */
module CacheProtocol {
  import opened Text
  import opened Sorting
  import opened Integrity
  import opened Projection
  import Board

  datatype Scope = Scope(gameKey: string, periodStart: string)

  datatype Key = Key(scope: Scope, generation: string)

  datatype Redis = Redis(
    pointer: map<Scope, string>,
    metadata: map<Key, map<string, string>>,
    members: map<Key, SortedSet>,
    players: map<Key, map<string, string>>,
    expiring: set<Key>)

  /** How far a rebuild has come. `Broken` has lost the answer to its EXEC, or was interrupted while it retired the
      previous generation, and can only clean up; `Failed` says whether the clean-up got through to Redis. */
  datatype Phase = Begun | HasScores | HasRevision | Published | Checked | Broken | Finished | Failed(deleted: bool)

  /** `seen` counts the rows committed when the scores were read. */
  datatype Rebuild = Rebuild(
    scope: Scope, signer: string, previous: Option<string>, phase: Phase,
    seen: nat, scores: seq<Board.Score>, revision: nat)

  datatype ReaderPhase = Idle | Counted | Revised | Pointed | Described | Verified | FellBack | Served
                       | HasMember | HasScore | Ranked

  /** `instant` counts the rows committed at the instant the page is claimed for. */
  datatype Reader = Reader(
    phase: ReaderPhase, scope: Scope, offset: nat, limit: nat, count: nat, revision: nat,
    generation: string, fields: map<string, string>, contract: Contract,
    instant: nat, rows: seq<Row>, fromRedis: bool,
    player: Uuid, member: string, score: Option<Float>, rank: Option<Row>)

  /** `log` lists the committed rows of each scope in commit order; `signed` is everything signed so far;
      `superseded` is every generation a pointer has named and been moved away from. */
  datatype State = State(
    log: map<Scope, seq<Board.Score>>,
    revisions: map<Scope, nat>,
    redis: Redis,
    rebuilds: map<string, Rebuild>,
    signed: set<Payload>,
    reader: Reader,
    superseded: set<Key>)

  datatype Env = Env(rt: Runtime, ring: Keyring)

  ghost function Rows(st: State, scope: Scope): seq<Board.Score> {
    if scope in st.log then st.log[scope] else []
  }

  ghost function Revision(st: State, scope: Scope): nat {
    if scope in st.revisions then st.revisions[scope] else 0
  }

  /** The board when `n` rows had been committed. */
  ghost function BoardAt(rows: seq<Board.Score>, n: nat): set<Board.Score>
    requires n <= |rows|
  {
    Elements(rows[..n])
  }

  // ---------- steps ----------

  datatype Part = MetadataKey | MembersKey | PlayersKey

  /** One statement of a rebuild. EXEC may take effect without its answer arriving. A Redis error of the last EXEC is
      swallowed, anything else interrupts the rebuild. */
  datatype RebuildStep =
    | ReadScores
    | ReadRevision
    | Publish(applied: bool, acknowledged: bool)
    | ReadBack
    | ExpirePrevious(applied: bool, interrupted: bool)
    | Fail(deleted: bool)

  /** One statement or command of a reader. */
  datatype ReaderStep =
    | Count(scope: Scope, offset: nat, limit: nat)
    | CheckRevision
    | FollowPointer
    | ReadMetadata
    | ReadCardinality
    | ReadRows
    | RedisFails
    | FallBack
    | ReadMember(player: Uuid)
    | ReadScore
    | ReadRank

  datatype Event =
    | InsertScore(scope: Scope, score: Board.Score)
    | Begin(id: Uuid, scope: Scope, signer: string)
    | Rebuilds(generation: string, step: RebuildStep)
    | Reads(read: ReaderStep)
    | KeyExpires(key: Key, part: Part)
    | Tamper(redis: Redis)

  predicate Duplicates(rows: seq<Board.Score>, score: Board.Score) {
    exists i :: 0 <= i < |rows| && (rows[i].session == score.session || rows[i].id == score.id)
  }

  /** The row satisfies the CHECK on the score and the unique constraints of the table, across all scopes. */
  ghost predicate TableTakes(st: State, score: Board.Score) {
    Board.Storable(score.points) && forall scope :: !Duplicates(Rows(st, scope), score)
  }

  /** The table takes the row, and its time prints in twenty digits. */
  ghost predicate Insertable(st: State, score: Board.Score) {
    InPaddedRange(score) && TableTakes(st, score)
  }

  function KeyOf(generation: string, rb: Rebuild): Key {
    Key(rb.scope, generation)
  }

  function ContractOf(env: Env, generation: string, rb: Rebuild): Contract {
    Contract(rb.scope.gameKey, rb.scope.periodStart, generation, rb.revision, |rb.scores|,
             ENCODING_VERSION, env.rt.keyId(rb.signer))
  }

  function RowPayloads(contract: Contract, scores: seq<Board.Score>): set<Payload> {
    set i | 0 <= i < |scores| :: RowPayload(contract, RowOf(scores[i], i + 1))
  }

  function Signatures(env: Env, generation: string, rb: Rebuild): set<Payload> {
    var contract := ContractOf(env, generation, rb);
    {MetadataPayload(MetadataFields(contract))} + RowPayloads(contract, rb.scores)
  }

  /** `players.setdefault(player_id, member)` over the entries, best first. */
  function PlayerMembers(items: seq<Item>, scores: seq<Board.Score>): map<string, string>
    requires |items| == |scores|
  {
    if items == [] then map[]
    else
      var n := |items| - 1;
      var earlier := PlayerMembers(items[..n], scores[..n]);
      var player := UuidText(scores[n].player);
      if player in earlier then earlier else earlier[player := items[n].member]
  }

  function Found<K, V>(m: map<K, V>, k: K, none: V): V {
    if k in m then m[k] else none
  }

  /** The MULTI/EXEC of a rebuild: ZADD and HSET merge into whatever the keys hold. */
  function Written(env: Env, redis: Redis, generation: string, rb: Rebuild): Redis {
    var key := KeyOf(generation, rb);
    var contract := ContractOf(env, generation, rb);
    var items := Encode(env.rt, rb.signer, contract, rb.scores);
    var members := if items == [] then redis.members
                   else redis.members[key := Found(redis.members, key, map[]) + ToSortedSet(items)];
    var players := if items == [] then redis.players
                   else redis.players[key := Found(redis.players, key, map[]) + PlayerMembers(items, rb.scores)];
    redis.(members := members, players := players,
           metadata := redis.metadata[key := Found(redis.metadata, key, map[]) + Metadata(env.rt, rb.signer, contract)],
           pointer := redis.pointer[rb.scope := generation])
  }

  function Without(redis: Redis, key: Key): Redis {
    redis.(metadata := redis.metadata - {key}, members := redis.members - {key}, players := redis.players - {key},
           expiring := redis.expiring - {key})
  }

  function WithoutPart(redis: Redis, key: Key, part: Part): Redis {
    match part
    case MetadataKey => redis.(metadata := redis.metadata - {key})
    case MembersKey => redis.(members := redis.members - {key})
    case PlayersKey => redis.(players := redis.players - {key})
  }

  /** `str(UUID(text))`. */
  function Normalized(env: Env, text: Option<string>): Option<string> {
    match text
    case None => None
    case Some(t) => match env.rt.parseUuid(t) case Some(u) => Some(UuidText(u)) case None => None
  }

  function PointerOf(redis: Redis, scope: Scope): Option<string> {
    if scope in redis.pointer then Some(redis.pointer[scope]) else None
  }

  /** The previous generation whose keys are to expire, if there is one. */
  function Stale(env: Env, generation: string, rb: Rebuild): Option<Key> {
    match Normalized(env, rb.previous)
    case Some(p) => if p != generation then Some(Key(rb.scope, p)) else None
    case None => None
  }

  // ---------- rebuilds ----------

  ghost predicate RebuildReady(env: Env, st: State, g: string, rb: Rebuild, step: RebuildStep) {
    match step
    case ReadScores => rb.phase.Begun? && Board.ValidBoard(Elements(Rows(st, rb.scope)))
    case ReadRevision => rb.phase.HasScores?
    case Publish(applied, acknowledged) => rb.phase.HasRevision? && (acknowledged ==> applied)
    case ReadBack =>
      && rb.phase.Published?
      && Listing(Found(st.redis.members, KeyOf(g, rb), map[])) == Encode(env.rt, rb.signer, ContractOf(env, g, rb), rb.scores)
    case ExpirePrevious(_, _) => rb.phase.Checked?
    case Fail(_) => !rb.phase.Finished? && !rb.phase.Failed?
  }

  ghost function NextRebuild(st: State, rb: Rebuild, step: RebuildStep): Rebuild
    requires step.ReadScores? ==> Board.ValidBoard(Elements(Rows(st, rb.scope)))
  {
    match step
    case ReadScores =>
      var rows := Rows(st, rb.scope);
      rb.(phase := HasScores, seen := |rows|, scores := Board.Canonical(Elements(rows)))
    case ReadRevision => rb.(phase := HasRevision, revision := Revision(st, rb.scope))
    case Publish(_, acknowledged) => rb.(phase := if acknowledged then Published else Broken)
    case ReadBack => rb.(phase := Checked)
    case ExpirePrevious(_, interrupted) => rb.(phase := if interrupted then Broken else Finished)
    case Fail(deleted) => rb.(phase := Failed(deleted))
  }

  function NextRedis(env: Env, redis: Redis, g: string, rb: Rebuild, step: RebuildStep): Redis {
    match step
    case Publish(true, _) => Written(env, redis, g, rb)
    case ExpirePrevious(true, _) =>
      (match Stale(env, g, rb)
       case Some(key) => redis.(expiring := redis.expiring + {key})
       case None => redis)
    case Fail(true) => Without(redis, KeyOf(g, rb))
    case _ => redis
  }

  /** The generation a publishing step moves the pointer away from. */
  function Moved(redis: Redis, rb: Rebuild, step: RebuildStep): set<Key> {
    match (step, PointerOf(redis, rb.scope))
    case (Publish(true, _), Some(p)) => {Key(rb.scope, p)}
    case _ => {}
  }

  ghost function ApplyRebuild(env: Env, st: State, g: string, step: RebuildStep): State
    requires g in st.rebuilds && RebuildReady(env, st, g, st.rebuilds[g], step)
  {
    var rb := st.rebuilds[g];
    st.(rebuilds := st.rebuilds[g := NextRebuild(st, rb, step)],
        redis := NextRedis(env, st.redis, g, rb, step),
        signed := if step.Publish? then st.signed + Signatures(env, g, rb) else st.signed,
        superseded := st.superseded + Moved(st.redis, rb, step))
  }

  // ---------- the reader ----------

  /** The next statement of the reader goes to Redis. */
  predicate AsksRedis(phase: ReaderPhase) {
    phase.Revised? || phase.Pointed? || phase.Described? || phase.Verified? || phase.HasMember? || phase.HasScore?
  }

  ghost predicate ReaderReady(st: State, read: ReaderStep) {
    match read
    case Count(_, _, limit) => st.reader.phase.Idle? && limit >= 1
    case CheckRevision => st.reader.phase.Counted?
    case FollowPointer => st.reader.phase.Revised?
    case ReadMetadata => st.reader.phase.Pointed?
    case ReadCardinality => st.reader.phase.Described?
    case ReadRows => st.reader.phase.Verified?
    case RedisFails => AsksRedis(st.reader.phase)
    // also after Redis rows from which some entry could not be built
    case FallBack =>
      && (st.reader.phase.FellBack? || (st.reader.phase.Served? && st.reader.fromRedis))
      && Board.ValidBoard(Elements(Rows(st, st.reader.scope)))
    case ReadMember(_) => st.reader.phase.Verified?
    case ReadScore => st.reader.phase.HasMember?
    case ReadRank => st.reader.phase.HasScore?
  }

  function MembersAt(redis: Redis, r: Reader): SortedSet {
    Found(redis.members, Key(r.scope, r.generation), map[])
  }

  function Wanted(r: Reader): Expectation {
    Expectation(r.scope.gameKey, r.scope.periodStart, r.generation, r.revision, r.count)
  }

  function AfterCardinality(env: Env, redis: Redis, r: Reader): Reader {
    match VerifyMetadata(env.rt, env.ring, r.fields, Wanted(r))
    case Some(contract) =>
      if |MembersAt(redis, r)| == r.count then r.(phase := Verified, contract := contract) else r.(phase := FellBack)
    case None => r.(phase := FellBack)
  }

  /** `ZRANGE members offset offset+limit-1`. */
  function PageItems(redis: Redis, r: Reader): seq<Item> {
    Range(Listing(MembersAt(redis, r)), r.offset, r.offset + r.limit - 1)
  }

  ghost function AfterRows(env: Env, redis: Redis, r: Reader): Reader {
    match AcceptPage(env.rt, env.ring, r.contract, PageItems(redis, r), r.count, r.offset, r.limit)
    case Some(rows) => r.(phase := Served, rows := rows, fromRedis := true)
    case None => r.(phase := FellBack)
  }

  function AfterMember(redis: Redis, r: Reader, player: Uuid): Reader {
    var players := Found(redis.players, Key(r.scope, r.generation), map[]);
    if UuidText(player) in players then r.(phase := HasMember, player := player, member := players[UuidText(player)])
    else r.(phase := Ranked, player := player, rank := None)
  }

  ghost function NextReader(env: Env, st: State, read: ReaderStep): Reader
    requires ReaderReady(st, read)
  {
    var r := st.reader;
    match read
    case Count(scope, offset, limit) =>
      r.(phase := Counted, scope := scope, offset := offset, limit := limit,
         count := |Rows(st, scope)|, instant := |Rows(st, scope)|)
    case CheckRevision => r.(phase := Revised, revision := Revision(st, r.scope))
    case FollowPointer =>
      (match Normalized(env, PointerOf(st.redis, r.scope))
       case Some(g) => r.(phase := Pointed, generation := g)
       case None => r.(phase := FellBack))
    case ReadMetadata =>
      r.(phase := Described, fields := Found(st.redis.metadata, Key(r.scope, r.generation), map[]))
    case ReadCardinality => AfterCardinality(env, st.redis, r)
    case ReadRows => AfterRows(env, st.redis, r)
    case RedisFails => r.(phase := FellBack)
    case FallBack =>
      r.(phase := Served, instant := |Rows(st, r.scope)|, fromRedis := false,
         rows := CanonicalRows(Elements(Rows(st, r.scope)), r.offset, r.limit))
    case ReadMember(player) => AfterMember(st.redis, r, player)
    case ReadScore =>
      var z := MembersAt(st.redis, r);
      r.(phase := HasScore, score := if r.member in z then Some(z[r.member]) else None)
    case ReadRank => r.(phase := Ranked, rank := RankRow(env, r, Listing(MembersAt(st.redis, r))))
  }

  // ---------- one step of the whole ----------

  ghost predicate Enabled(env: Env, st: State, ev: Event) {
    match ev
    case InsertScore(_, score) => Insertable(st, score)
    case Begin(id, scope, signer) => UuidText(id) !in st.rebuilds
    case Rebuilds(g, step) => g in st.rebuilds && RebuildReady(env, st, g, st.rebuilds[g], step)
    case Reads(read) => ReaderReady(st, read)
    case KeyExpires(key, _) => key in st.redis.expiring
    case Tamper(redis) => NoForgery(env, redis, st.signed)
  }

  ghost function Apply(env: Env, st: State, ev: Event): State
    requires Enabled(env, st, ev)
  {
    match ev
    // the insert and its trigger commit together
    case InsertScore(scope, score) => Inserted(st, scope, score)
    case Begin(id, scope, signer) =>
      st.(rebuilds := st.rebuilds[UuidText(id) := Rebuild(scope, signer, PointerOf(st.redis, scope), Begun, 0, [], 0)])
    case Rebuilds(g, step) => ApplyRebuild(env, st, g, step)
    case Reads(read) => st.(reader := NextReader(env, st, read))
    case KeyExpires(key, part) => st.(redis := WithoutPart(st.redis, key, part))
    case Tamper(redis) => st.(redis := redis)
  }

  ghost function Inserted(st: State, scope: Scope, score: Board.Score): State {
    st.(log := st.log[scope := Rows(st, scope) + [score]], revisions := st.revisions[scope := Revision(st, scope) + 1])
  }

  /** Rows `offset` to `offset + limit` of the canonical ordering, each with its rank. */
  ghost function CanonicalRows(board: set<Board.Score>, offset: nat, limit: nat): seq<Row>
    requires Board.ValidBoard(board)
  {
    var scores := Board.Slice(Board.Canonical(board), offset, limit);
    seq(|scores|, i requires 0 <= i < |scores| => RowOf(scores[i], offset + i + 1))
  }

  ghost function PlaceIn(items: seq<Item>, member: string): Option<nat> {
    if i :| 0 <= i < |items| && items[i].member == member then Some(i) else None
  }

  /** `projected_player_rank` once ZSCORE and ZRANK have answered. */
  ghost function RankRow(env: Env, r: Reader, items: seq<Item>): Option<Row> {
    match (r.score, PlaceIn(items, r.member))
    case (Some(score), Some(place)) =>
      (match ParseMember(env.rt, env.ring, r.contract, r.member, score)
       case Some(row) => if row.playerId == UuidText(r.player) && row.rank == place + 1 then Some(row) else None
       case None => None)
    case _ => None
  }

  // ---------- unforgeable signatures ----------

  ghost predicate GenuineFields(env: Env, fields: map<string, string>, signed: set<Payload>) {
    forall want :: VerifyMetadata(env.rt, env.ring, fields, want).Some? ==> MetadataPayload(fields - {"signature"}) in signed
  }

  ghost predicate GenuineMember(env: Env, member: string, score: Float, signed: set<Payload>) {
    forall contract ::
      var row := ParseMember(env.rt, env.ring, contract, member, score);
      row.Some? ==> RowPayload(contract, row.value) in signed
  }

  /** Whatever in Redis would pass the reader's signature checks was signed by a rebuild. */
  ghost predicate NoForgery(env: Env, redis: Redis, signed: set<Payload>) {
    && (forall key | key in redis.metadata :: GenuineFields(env, redis.metadata[key], signed))
    && (forall key, m | key in redis.members && m in redis.members[key] ::
          GenuineMember(env, m, redis.members[key][m], signed))
  }
}
