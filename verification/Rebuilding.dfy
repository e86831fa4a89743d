/** The score table with its revision trigger, the Redis server and the rebuild tool as the objects they are:
    one method for each statement, equal to the corresponding step of the protocol. */
module Rebuilding {
  import opened Text
  import opened Sorting
  import opened Integrity
  import opened Projection
  import opened CacheProtocol
  import opened CacheSafety
  import opened RebuildSafety
  import Board

  // ---------- PostgreSQL ----------

  class ScoreTable {
    var scores: map<Scope, seq<Board.Score>>
    var revisions: map<Scope, nat>

    ghost predicate Holds(st: State)
      reads this
    {
      scores == st.log && revisions == st.revisions
    }

    method HasDuplicate(rows: seq<Board.Score>, score: Board.Score) returns (found: bool)
      ensures found <==> Duplicates(rows, score)
    {
      for i := 0 to |rows|
        invariant forall k | 0 <= k < i :: rows[k].session != score.session && rows[k].id != score.id
      {
        if rows[i].session == score.session || rows[i].id == score.id { return true; }
      }
      found := false;
    }

    method IsFree(score: Board.Score, ghost st: State) returns (free: bool)
      requires Holds(st)
      ensures free <==> forall scope :: !Duplicates(Rows(st, scope), score)
    {
      hide Duplicates;
      var left := scores.Keys;
      while left != {}
        invariant left <= scores.Keys
        invariant forall scope | scope in scores && scope !in left :: !Duplicates(scores[scope], score)
        decreases |left|
      {
        var scope :| scope in left;
        var found := HasDuplicate(scores[scope], score);
        if found {
          assert Rows(st, scope) == scores[scope];
          return false;
        }
        left := left - {scope};
      }
      forall scope ensures !Duplicates(Rows(st, scope), score) { NoneInEmpty(score); }
      free := true;
    }

    /** An insert and its trigger. It fails on the CHECK of the score and on a session or id that is taken anywhere in
        the table. */
    method Insert(scope: Scope, score: Board.Score, ghost st: State) returns (ok: bool)
      requires Holds(st)
      modifies this
      ensures ok <==> TableTakes(st, score)
      ensures Holds(if ok then Inserted(st, scope, score) else st)
    {
      hide Board.Storable, Duplicates;
      if !Board.Storable(score.points) { return false; }
      var free := IsFree(score, st);
      if !free { return false; }
      ok := true;
      var rows := if scope in scores then scores[scope] else [];
      scores := scores[scope := rows + [score]];
      // INSERT ... VALUES (..., 1) ON CONFLICT DO UPDATE SET revision = revision + 1
      revisions := if scope in revisions then revisions[scope := revisions[scope] + 1] else revisions[scope := 1];
    }

    /** The migration counts the scores that are already there. */
    method Backfill(ghost st: State)
      requires scores == st.log && forall scope :: ValidRows(Rows(st, scope))
      modifies `revisions
      ensures LogInv(st.(revisions := revisions))
    {
      var counts: map<Scope, nat> := map[];
      var left := scores.Keys;
      while left != {}
        invariant left <= scores.Keys && counts.Keys == scores.Keys - left
        invariant forall scope | scope in counts :: counts[scope] == |scores[scope]|
        decreases |left|
      {
        var scope :| scope in left;
        counts := counts[scope := |scores[scope]|];
        left := left - {scope};
      }
      revisions := counts;
      forall scope ensures Revision(st.(revisions := counts), scope) == |Rows(st, scope)| {
      }
      forall scope ensures ValidRows(Rows(st.(revisions := counts), scope)) {
        assert Rows(st.(revisions := counts), scope) == Rows(st, scope);
      }
    }

    /** `list_canonical_scores` without a limit. */
    method ListCanonical(scope: Scope, ghost st: State) returns (rows: seq<Board.Score>)
      requires Holds(st) && Board.ValidBoard(Elements(Rows(st, scope)))
      ensures rows == Board.Canonical(Elements(Rows(st, scope)))
    {
      rows := Board.Canonical(Elements(if scope in scores then scores[scope] else []));
    }

    method ReadRevision(scope: Scope, ghost st: State) returns (revision: nat)
      requires Holds(st)
      ensures revision == Revision(st, scope)
    {
      revision := if scope in revisions then revisions[scope] else 0;
    }
  }

  lemma NoneInEmpty(score: Board.Score)
    ensures !Duplicates([], score)
  {
  }

  // ---------- Redis ----------

  class RedisServer {
    var pointer: map<Scope, string>
    var metadata: map<Key, map<string, string>>
    var members: map<Key, SortedSet>
    var players: map<Key, map<string, string>>
    var expiring: set<Key>

    function Contents(): Redis
      reads this
    {
      Redis(pointer, metadata, members, players, expiring)
    }

    method Get(scope: Scope) returns (text: Option<string>)
      ensures text == PointerOf(Contents(), scope)
    {
      text := if scope in pointer then Some(pointer[scope]) else None;
    }

    /** MULTI ... EXEC: all of a rebuild's commands or none. Absent keys are created. */
    method Exec(key: Key, entries: SortedSet, best: map<string, string>, fields: map<string, string>)
      modifies this
      ensures Contents() == old(Contents()).(
        members := if entries == map[] then old(members)
                   else old(members)[key := Found(old(members), key, map[]) + entries],
        players := if best == map[] then old(players) else old(players)[key := Found(old(players), key, map[]) + best],
        metadata := old(metadata)[key := Found(old(metadata), key, map[]) + fields],
        pointer := old(pointer)[key.scope := key.generation])
    {
      if entries != map[] { members := members[key := Found(members, key, map[]) + entries]; }
      if best != map[] { players := players[key := Found(players, key, map[]) + best]; }
      metadata := metadata[key := Found(metadata, key, map[]) + fields];
      pointer := pointer[key.scope := key.generation];
    }

    /** `ZRANGE key 0 -1 WITHSCORES`. */
    method ListMembers(key: Key) returns (items: seq<Item>)
      ensures items == Listing(Found(members, key, map[]))
    {
      items := Listing(Found(members, key, map[]));
    }

    method Expire(key: Key)
      modifies `expiring
      ensures Contents() == old(Contents()).(expiring := old(expiring) + {key})
    {
      expiring := expiring + {key};
    }

    method Delete(key: Key)
      modifies this
      ensures Contents() == Without(old(Contents()), key)
    {
      members := members - {key};
      metadata := metadata - {key};
      players := players - {key};
      expiring := expiring - {key};
    }
  }

  // ---------- the tool ----------

  /** A rebuild in progress. Its methods are the statements between which other work may run. */
  class RebuildProcess {
    const env: Env
    const client: RedisServer
    const scope: Scope
    const generation: string
    const signer: string
    var previous: Option<string>
    var phase: Phase
    var scores: seq<Board.Score>
    var seen: nat
    var revision: nat

    function Progress(): Rebuild
      reads this
    {
      Rebuild(scope, signer, previous, phase, seen, scores, revision)
    }

    constructor (env: Env, client: RedisServer, scope: Scope, generation: Uuid, signer: string)
      ensures this.env == env && this.client == client && this.generation == UuidText(generation)
      ensures Progress() == Rebuild(scope, signer, PointerOf(client.Contents(), scope), Begun, 0, [], 0)
    {
      this.env, this.client, this.scope, this.signer := env, client, scope, signer;
      this.generation := UuidText(generation);
      phase, scores, seen, revision := Begun, [], 0, 0;
      new;
      previous := client.Get(scope);
    }

    method TakeScores(table: ScoreTable, ghost st: State)
      requires table.Holds(st) && LogInv(st) && phase.Begun?
      modifies this
      ensures Board.ValidBoard(Elements(Rows(st, scope)))
      ensures Progress() == NextRebuild(st, old(Progress()), ReadScores)
    {
      ghost var rows := Rows(st, scope);
      ValidPrefix(rows, |rows|);
      WholeBoard(rows);
      scores := table.ListCanonical(scope, st);
      seen := |scores|;
      phase := HasScores;
    }

    method TakeRevision(table: ScoreTable, ghost st: State)
      requires table.Holds(st) && phase.HasScores?
      modifies this
      ensures Progress() == NextRebuild(st, old(Progress()), ReadRevision)
    {
      revision := table.ReadRevision(scope, st);
      phase := HasRevision;
    }

    function TheContract(): Contract
      reads this
    {
      ContractOf(env, generation, Progress())
    }

    /** `encoded`, one member per score with its rank. */
    method EncodeAll() returns (encoded: seq<Item>)
      ensures encoded == Encode(env.rt, signer, TheContract(), scores)
    {
      encoded := [];
      for i := 0 to |scores|
        invariant |encoded| == i
        invariant forall k | 0 <= k < i :: encoded[k] == EncodeScore(env.rt, signer, TheContract(), scores[k], k + 1)
      {
        encoded := encoded + [EncodeScore(env.rt, signer, TheContract(), scores[i], i + 1)];
      }
    }

    /** The dictionaries that go to ZADD and HSET. */
    method Collect(encoded: seq<Item>) returns (members: SortedSet, players: map<string, string>)
      requires |encoded| == |scores|
      ensures members == ToSortedSet(encoded) && players == PlayerMembers(encoded, scores)
    {
      hide UuidText;
      members, players := map[], map[];
      for i := 0 to |encoded|
        invariant members == ToSortedSet(encoded[..i]) && players == PlayerMembers(encoded[..i], scores[..i])
      {
        assert encoded[..i + 1][..i] == encoded[..i] && scores[..i + 1][..i] == scores[..i];
        members := members[encoded[i].member := encoded[i].score];
        var player := UuidText(scores[i].player);
        if player !in players { players := players[player := encoded[i].member]; }
      }
      assert encoded[..|encoded|] == encoded && scores[..|encoded|] == scores;
    }

    /** Publishing when EXEC is applied and its answer arrives. */
    method PublishGeneration()
      requires phase.HasRevision?
      modifies this, client
      ensures Progress() == old(Progress()).(phase := Published)
      ensures client.Contents() == Written(env, old(client.Contents()), generation, old(Progress()))
    {
      hide EncodeScore, Metadata, UuidText;
      var encoded := EncodeAll();
      var members, players := Collect(encoded);
      NothingEncoded(encoded, scores);
      client.Exec(Key(scope, generation), members, players, Metadata(env.rt, signer, TheContract()));
      phase := Published;
    }

    /** `projected == expected`. */
    method CheckGeneration() returns (ok: bool)
      requires phase.Published?
      modifies this
      ensures ok <==> Listing(Found(client.members, Key(scope, generation), map[])) == Encode(env.rt, signer, old(TheContract()), scores)
      ensures Progress() == if ok then old(Progress()).(phase := Checked) else old(Progress())
    {
      hide Listing, EncodeScore;
      var encoded := EncodeAll();
      var projected := client.ListMembers(Key(scope, generation));
      ok := projected == encoded;
      if ok { phase := Checked; }
    }

    /** A Redis failure here only leaves the previous generation without an expiry. */
    method RetirePrevious(reachable: bool)
      requires phase.Checked?
      modifies this, client
      ensures Progress() == old(Progress()).(phase := Finished)
      ensures client.Contents() == if reachable || Stale(env, generation, old(Progress())).None?
        then NextRedis(env, old(client.Contents()), generation, old(Progress()), ExpirePrevious(true, false)) else old(client.Contents())
    {
      if previous.Some? {
        var parsed := env.rt.parseUuid(previous.value);
        if parsed.Some? && UuidText(parsed.value) != generation && reachable {
          client.Expire(Key(scope, UuidText(parsed.value)));
        }
      }
      phase := Finished;
    }

    /** The handler of any failure. */
    method CleanUp()
      modifies this, client
      ensures Progress() == old(Progress()).(phase := Failed(true))
      ensures client.Contents() == NextRedis(env, old(client.Contents()), generation, old(Progress()), Fail(true))
    {
      client.Delete(Key(scope, generation));
      phase := Failed(true);
    }
  }

  lemma NothingEncoded(items: seq<Item>, scores: seq<Board.Score>)
    requires |items| == |scores|
    ensures ToSortedSet(items) == map[] <==> items == []
    ensures PlayerMembers(items, scores) == map[] <==> items == []
  {
    hide UuidText;
    if items != [] {
      var n := |items| - 1;
      assert items[n].member in ToSortedSet(items);
      PlayerMembersCover(items, scores, n);
    }
  }

  /** `rebuild_leaderboard` with nothing else running: on an unused generation id it always succeeds, and the
      reader would trust what it leaves. */
  method RebuildLeaderboard(env: Env, table: ScoreTable, client: RedisServer, scope: Scope, id: Uuid, signer: string,
                            ghost st: State) returns (count: Option<nat>)
    requires table.Holds(st) && LogInv(st) && st.redis == client.Contents()
    modifies client
    ensures var rb := Rebuild(scope, signer, PointerOf(st.redis, scope), Published, |Rows(st, scope)|,
                              Board.Canonical(Elements(Rows(st, scope))), Revision(st, scope));
      var g, key := UuidText(id), Key(scope, UuidText(id));
      var written := Written(env, st.redis, g, rb);
      && (key !in st.redis.members ==> count.Some?)
      && match count
         case Some(n) => n == |Rows(st, scope)| && client.Contents() == NextRedis(env, written, g, rb, ExpirePrevious(true, false))
         case None => client.Contents() == Without(written, key)
  {
    hide Written, Listing, EncodeScore, ValidRows, UuidText, Stale, PlayerMembers, ToSortedSet, Metadata;
    ghost var rows := Rows(st, scope);
    assert ValidRows(rows);
    ValidPrefix(rows, |rows|);
    WholeBoard(rows);
    var process := new RebuildProcess(env, client, scope, id, signer);
    process.TakeScores(table, st);
    process.TakeRevision(table, st);
    process.PublishGeneration();
    ghost var rb := process.Progress();
    PhaseUnread(env, st.redis, UuidText(id), rb, HasRevision);
    PhaseUnread(env, client.Contents(), UuidText(id), rb, Checked);
    if Key(scope, UuidText(id)) !in st.redis.members {
      FreshGenerationReadsBack(env, st, UuidText(id), rb);
    }
    hide NextRedis;
    var ok := process.CheckGeneration();
    if ok {
      count := Some(|process.scores|);
      process.RetirePrevious(true);
    } else {
      process.CleanUp();
      count := None;
    }
  }

  /** What a rebuild writes and expires does not depend on how far it has come. */
  lemma PhaseUnread(env: Env, redis: Redis, g: string, rb: Rebuild, phase: Phase)
    ensures Written(env, redis, g, rb.(phase := phase)) == Written(env, redis, g, rb)
    ensures NextRedis(env, redis, g, rb.(phase := phase), ExpirePrevious(true, false)) == NextRedis(env, redis, g, rb, ExpirePrevious(true, false))
    ensures ContractOf(env, g, rb.(phase := phase)) == ContractOf(env, g, rb)
    ensures Without(redis, KeyOf(g, rb)) == NextRedis(env, redis, g, rb, Fail(true))
  {
  }

  lemma FreshGenerationReadsBack(env: Env, st: State, g: string, rb: Rebuild)
    requires LogInv(st) && Board.ValidBoard(Elements(Rows(st, rb.scope)))
    requires rb.scores == Board.Canonical(Elements(Rows(st, rb.scope)))
    requires KeyOf(g, rb) !in st.redis.members
    ensures Listing(Found(Written(env, st.redis, g, rb).members, KeyOf(g, rb), map[])) == Encode(env.rt, rb.signer, ContractOf(env, g, rb), rb.scores)
  {
    hide EncodeScore, Metadata, PlayerMembers, ContractOf, Board.Canonical;
    var rows := Rows(st, rb.scope);
    assert ValidRows(rows);
    ReadBackPasses(env.rt, rb.signer, ContractOf(env, g, rb), Elements(rows));
    NothingMerged(ToSortedSet(Encode(env.rt, rb.signer, ContractOf(env, g, rb), rb.scores)));
    hide Listing;
  }
}
