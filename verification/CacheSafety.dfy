/** Safety of the leaderboard cache in every run: a page taken from Redis is the canonical slice at the
    instant the reader counted the rows, whatever the interleaving and whatever the intruder wrote. */
module CacheSafety {
  import opened Text
  import opened Sorting
  import opened Integrity
  import opened Projection
  import opened CacheProtocol
  import Board

  // ---------- invariants ----------

  ghost predicate ValidRows(rows: seq<Board.Score>) {
    && (forall i | 0 <= i < |rows| :: InPaddedRange(rows[i]) && 0 <= rows[i].points <= 1_000_000)
    && (forall i, j | 0 <= i < j < |rows| :: rows[i].session != rows[j].session && rows[i].id != rows[j].id)
  }

  /** The trigger keeps the revision equal to the number of rows. */
  ghost predicate LogInv(st: State) {
    forall scope :: ValidRows(Rows(st, scope)) && Revision(st, scope) == |Rows(st, scope)|
  }

  ghost predicate IsUuidText(text: string) {
    exists u: Uuid :: text == UuidText(u)
  }

  /** A rebuild holds the canonical board of the instant at which it read the scores. */
  ghost predicate GoodRebuild(st: State, g: string)
    requires g in st.rebuilds
  {
    var rb := st.rebuilds[g];
    var rows := Rows(st, rb.scope);
    && IsUuidText(g)
    && rb.seen <= |rows|
    && Board.ValidBoard(BoardAt(rows, rb.seen))
    && rb.scores == Board.Canonical(BoardAt(rows, rb.seen))
    && |rb.scores| == rb.seen
  }

  ghost predicate RebuildInv(st: State) {
    forall g | g in st.rebuilds :: GoodRebuild(st, g)
  }

  predicate PastSigning(phase: Phase) {
    phase.Published? || phase.Checked? || phase.Broken? || phase.Finished? || phase.Failed?
  }

  ghost predicate SignedBy(env: Env, st: State, p: Payload, g: string) {
    g in st.rebuilds && PastSigning(st.rebuilds[g].phase) && p in Signatures(env, g, st.rebuilds[g])
  }

  ghost predicate SignedInv(env: Env, st: State) {
    forall p | p in st.signed :: exists g :: SignedBy(env, st, p, g)
  }

  /** The reader's contract is that of a rebuild which read exactly the rows the reader counted. */
  ghost predicate Vouched(st: State, r: Reader) {
    && r.generation in st.rebuilds
    && var rb := st.rebuilds[r.generation];
    && rb.scope == r.scope && PastSigning(rb.phase) && rb.seen == r.count
    && r.contract.generation == r.generation
  }

  ghost predicate Correct(st: State, r: Reader) {
    var rows := Rows(st, r.scope);
    && r.count <= r.instant <= |rows|
    && Board.ValidBoard(BoardAt(rows, r.instant))
    && r.rows == CanonicalRows(BoardAt(rows, r.instant), r.offset, r.limit)
  }

  ghost predicate ReaderInv(env: Env, st: State) {
    var r := st.reader;
    && (!r.phase.Idle? ==> r.limit >= 1 && r.count <= |Rows(st, r.scope)|)
    && (!r.phase.Served? || r.fromRedis ==> r.instant == r.count)
    && (r.phase.Described? ==> GenuineFields(env, r.fields, st.signed))
    && (r.phase.Verified? || r.phase.HasMember? || r.phase.HasScore? ==> Vouched(st, r))
    && (r.phase.Served? ==> Correct(st, r))
  }

  ghost predicate Safe(env: Env, st: State) {
    && LogInv(st)
    && RebuildInv(st)
    && SignedInv(env, st)
    && NoForgery(env, st.redis, st.signed)
    && ReaderInv(env, st)
  }

  /** Any committed scores, any garbage in Redis, nothing signed yet. */
  ghost predicate Initial(env: Env, st: State) {
    && LogInv(st)
    && st.rebuilds == map[] && st.signed == {} && st.superseded == {}
    && NoForgery(env, st.redis, {})
    && st.reader.phase.Idle? && st.reader.instant == st.reader.count
  }

  lemma InitialIsSafe(env: Env, st: State)
    requires Initial(env, st)
    ensures Safe(env, st)
  {
  }

  // ---------- boards ----------

  lemma ValidPrefix(rows: seq<Board.Score>, n: nat)
    requires ValidRows(rows) && n <= |rows|
    ensures Board.ValidBoard(BoardAt(rows, n))
    ensures |BoardAt(rows, n)| == n
    ensures forall s | s in BoardAt(rows, n) :: InPaddedRange(s)
  {
    var board := BoardAt(rows, n);
    forall a, b | a in board && b in board && (a.session == b.session || a.id == b.id) ensures a == b {
      var i :| 0 <= i < n && rows[..n][i] == a;
      var j :| 0 <= j < n && rows[..n][j] == b;
      assert rows[i] == a && rows[j] == b;
    }
    PrefixSize(rows, n);
  }

  lemma {:induction false} PrefixSize(rows: seq<Board.Score>, n: nat)
    requires ValidRows(rows) && n <= |rows|
    ensures |BoardAt(rows, n)| == n
  {
    if n > 0 {
      PrefixSize(rows, n - 1);
      assert rows[..n] == rows[..n - 1] + [rows[n - 1]];
      hide ValidRows;
      NewInPrefix(rows, n - 1);
      SnocSize(rows[..n - 1], rows[n - 1]);
    }
  }

  lemma NewInPrefix(rows: seq<Board.Score>, n: nat)
    requires ValidRows(rows) && n < |rows|
    ensures rows[n] !in rows[..n]
  {
  }

  lemma SnocSize(rows: seq<Board.Score>, last: Board.Score)
    requires last !in rows
    ensures |Elements(rows + [last])| == |Elements(rows)| + 1
  {
    assert Elements(rows + [last]) == Elements(rows) + {last};
  }

  lemma WholeBoard(rows: seq<Board.Score>)
    ensures BoardAt(rows, |rows|) == Elements(rows)
  {
    assert rows[..|rows|] == rows;
  }

  lemma BoardIsValid(st: State, scope: Scope)
    requires LogInv(st)
    ensures Board.ValidBoard(Elements(Rows(st, scope)))
  {
    var rows := Rows(st, scope);
    ValidPrefix(rows, |rows|);
    WholeBoard(rows);
  }

  // ---------- what a signature vouches for ----------

  lemma SignedMetadata(env: Env, st: State, fields: map<string, string>) returns (g: string)
    requires SignedInv(env, st) && MetadataPayload(fields) in st.signed
    ensures g in st.rebuilds && PastSigning(st.rebuilds[g].phase)
    ensures fields == MetadataFields(ContractOf(env, g, st.rebuilds[g]))
  {
    hide MetadataFields;
    g :| SignedBy(env, st, MetadataPayload(fields), g);
  }

  lemma SignedRow(env: Env, st: State, contract: Contract, row: Row)
    requires SignedInv(env, st) && RowPayload(contract, row) in st.signed
    ensures contract.generation in st.rebuilds
    ensures var rb := st.rebuilds[contract.generation];
            1 <= row.rank <= |rb.scores| && row == RowOf(rb.scores[row.rank - 1], row.rank)
  {
    hide MetadataFields, UuidText;
    var g :| SignedBy(env, st, RowPayload(contract, row), g);
    var rb := st.rebuilds[g];
    var signing := ContractOf(env, g, rb);
    assert RowPayload(contract, row) in RowPayloads(signing, rb.scores);
    var i :| 0 <= i < |rb.scores| && RowPayload(contract, row) == RowPayload(signing, RowOf(rb.scores[i], i + 1));
  }

  lemma VerifiedIsVouched(env: Env, st: State, r: Reader, contract: Contract)
    requires ReadsBack(env.rt) && SignedInv(env, st) && RebuildInv(st)
    requires GenuineFields(env, r.fields, st.signed)
    requires VerifyMetadata(env.rt, env.ring, r.fields, Wanted(r)) == Some(contract)
    ensures Vouched(st, r.(contract := contract))
  {
    hide VerifyMetadata, MetadataFields, SaysWhatIsWanted, ReadsBack;
    var want := Wanted(r);
    VerifiedFields(env.rt, env.ring, r.fields, want);
    var g := SignedMetadata(env, st, r.fields - {"signature"});
    assert GoodRebuild(st, g);
    PublishedFields(env.rt, ContractOf(env, g, st.rebuilds[g]), want);
  }

  // ---------- the page ----------

  lemma ListedIsStored(z: SortedSet, i: nat)
    requires i < |Listing(z)|
    ensures var item := Listing(z)[i]; item.member in z && z[item.member] == item.score
  {
    ItemOrder(z);
    SortSetSorts(Items(z), ItemBefore);
    assert Listing(z)[i] in Elements(Listing(z));
  }

  lemma RangeEntry<T>(items: seq<T>, start: int, stop: int, i: nat) returns (k: nat)
    requires i < |Range(items, start, stop)|
    ensures k < |items| && items[k] == Range(items, start, stop)[i]
  {
    var from := Board.Min(if start < 0 then if start + |items| < 0 then 0 else start + |items| else start, |items|);
    k := from + i;
  }

  /** Every accepted row is the canonical entry at its place. */
  lemma AcceptedRowIsCanonical(env: Env, st: State, item: Item, place: nat)
    requires SignedInv(env, st) && Vouched(st, st.reader)
    requires GenuineMember(env, item.member, item.score, st.signed)
    requires AcceptRow(env.rt, env.ring, st.reader.contract, item, place + 1).Some?
    ensures var scores := st.rebuilds[st.reader.generation].scores;
            && place < |scores|
            && AcceptRow(env.rt, env.ring, st.reader.contract, item, place + 1) == Some(RowOf(scores[place], place + 1))
  {
    hide ParseMember, RowOf, RowPayload, SignedInv;
    var contract := st.reader.contract;
    var row := ParseMember(env.rt, env.ring, contract, item.member, item.score);
    assert RowPayload(contract, row.value) in st.signed;
    SignedRow(env, st, contract, row.value);
  }

  lemma AcceptedPageIsCanonical(env: Env, st: State, items: seq<Item>, rows: seq<Row>)
    requires SignedInv(env, st) && RebuildInv(st) && Vouched(st, st.reader)
    requires forall i | 0 <= i < |items| :: GenuineMember(env, items[i].member, items[i].score, st.signed)
    requires AcceptPage(env.rt, env.ring, st.reader.contract, items, st.reader.count, st.reader.offset, st.reader.limit) == Some(rows)
    ensures var r := st.reader;
            && r.count <= |Rows(st, r.scope)|
            && Board.ValidBoard(BoardAt(Rows(st, r.scope), r.count))
            && rows == CanonicalRows(BoardAt(Rows(st, r.scope), r.count), r.offset, r.limit)
  {
    hide ParseMember, RowOf, GenuineMember, AcceptRow, Board.Canonical;
    var r := st.reader;
    assert GoodRebuild(st, r.generation);
    var scores := st.rebuilds[r.generation].scores;
    var page := Board.Slice(scores, r.offset, r.limit);
    assert |rows| == |page|;
    forall i | 0 <= i < |rows| ensures rows[i] == RowOf(page[i], r.offset + i + 1) {
      AcceptedRowIsCanonical(env, st, items[i], r.offset + i);
      assert page[i] == scores[r.offset + i];
    }
  }

  // ---------- every step keeps the invariant ----------

  lemma RowsGrow(st: State, scope: Scope, score: Board.Score)
    requires LogInv(st) && Insertable(st, score)
    ensures LogInv(Inserted(st, scope, score))
    ensures forall other :: Rows(st, other) <= Rows(Inserted(st, scope, score), other)
  {
    var st' := Inserted(st, scope, score);
    forall other ensures ValidRows(Rows(st', other)) && Revision(st', other) == |Rows(st', other)| {
      assert ValidRows(Rows(st, other));
    }
  }

  lemma BoardAtKept(rows: seq<Board.Score>, longer: seq<Board.Score>, n: nat)
    requires rows <= longer && n <= |rows|
    ensures BoardAt(rows, n) == BoardAt(longer, n)
  {
    assert rows[..n] == longer[..n];
  }

  lemma InsertIsSafe(env: Env, st: State, scope: Scope, score: Board.Score)
    requires Safe(env, st) && Insertable(st, score)
    ensures Safe(env, Inserted(st, scope, score))
  {
    RowsGrow(st, scope, score);
    var st' := Inserted(st, scope, score);
    hide Insertable, LogInv, RebuildInv, SignedInv, NoForgery, ReaderInv, Rows, Inserted;
    GrownRebuilds(st, st');
    SignaturesKept(env, st, st');
    GrownReader(env, st, st');
  }

  lemma GrownRebuilds(st: State, st': State)
    requires RebuildInv(st) && st'.rebuilds == st.rebuilds
    requires forall scope :: Rows(st, scope) <= Rows(st', scope)
    ensures RebuildInv(st')
  {
    hide GoodRebuild, Rows;
    forall g | g in st'.rebuilds ensures GoodRebuild(st', g) {
      assert GoodRebuild(st, g);
      GrownIsGood(st, st', g);
    }
  }

  lemma GrownReader(env: Env, st: State, st': State)
    requires ReaderInv(env, st) && st'.reader == st.reader && st'.rebuilds == st.rebuilds && st'.signed == st.signed
    requires Rows(st, st.reader.scope) <= Rows(st', st.reader.scope)
    ensures ReaderInv(env, st')
  {
    hide GenuineFields, BoardAt, CanonicalRows, Rows, Board.ValidBoard;
    var r := st.reader;
    if r.phase.Served? { BoardAtKept(Rows(st, r.scope), Rows(st', r.scope), r.instant); }
  }

  lemma GrownIsGood(st: State, st': State, g: string)
    requires g in st.rebuilds && st'.rebuilds == st.rebuilds && GoodRebuild(st, g)
    requires Rows(st, st.rebuilds[g].scope) <= Rows(st', st.rebuilds[g].scope)
    ensures GoodRebuild(st', g)
  {
    var rb := st.rebuilds[g];
    BoardAtKept(Rows(st, rb.scope), Rows(st', rb.scope), rb.seen);
    hide Rows, BoardAt, Board.Canonical;
  }

  /** Rebuilds that have signed are not changed in what they signed. */
  ghost predicate SignersKept(st: State, st': State) {
    forall g | g in st.rebuilds && PastSigning(st.rebuilds[g].phase) ::
      && g in st'.rebuilds && PastSigning(st'.rebuilds[g].phase)
      && st'.rebuilds[g].scope == st.rebuilds[g].scope && st'.rebuilds[g].signer == st.rebuilds[g].signer
      && st'.rebuilds[g].seen == st.rebuilds[g].seen
      && st'.rebuilds[g].scores == st.rebuilds[g].scores && st'.rebuilds[g].revision == st.rebuilds[g].revision
  }

  lemma SignaturesKept(env: Env, st: State, st': State)
    requires SignedInv(env, st) && SignersKept(st, st') && st'.signed == st.signed
    ensures SignedInv(env, st')
  {
    forall p | p in st'.signed ensures exists g :: SignedBy(env, st', p, g) {
      var g :| SignedBy(env, st, p, g);
      assert SignedBy(env, st', p, g);
    }
  }

  lemma GenuineKept(env: Env, redis: Redis, signed: set<Payload>, signed': set<Payload>)
    requires NoForgery(env, redis, signed) && signed <= signed'
    ensures NoForgery(env, redis, signed')
  {
    hide VerifyMetadata, ParseMember, RowPayload;
    forall key | key in redis.metadata ensures GenuineFields(env, redis.metadata[key], signed') {
      assert GenuineFields(env, redis.metadata[key], signed);
    }
    forall key, m | key in redis.members && m in redis.members[key]
      ensures GenuineMember(env, m, redis.members[key][m], signed')
    {
      assert GenuineMember(env, m, redis.members[key][m], signed);
    }
  }

  /** Metadata merged over anything an intruder left verifies only as the metadata that was signed. */
  lemma MergedFieldsGenuine(env: Env, before: map<string, string>, signer: string, contract: Contract,
                            signed: set<Payload>)
    requires contract.revision >= 0 && contract.count >= 0 && contract.keyId == env.rt.keyId(signer)
    requires MetadataPayload(MetadataFields(contract)) in signed
    ensures GenuineFields(env, before + Metadata(env.rt, signer, contract), signed)
  {
    hide VerifyMetadata;
    var fields := Metadata(env.rt, signer, contract);
    MetadataUnsigned(env.rt, signer, contract);
    assert fields.Keys == FIELD_NAMES;
    forall want | VerifyMetadata(env.rt, env.ring, before + fields, want).Some?
      ensures MetadataPayload((before + fields) - {"signature"}) in signed
    {
      VerifiedFields(env.rt, env.ring, before + fields, want);
      assert before + fields == fields;
    }
  }

  lemma EncodedGenuine(env: Env, signer: string, contract: Contract, scores: seq<Board.Score>, i: nat, score: Float,
                       signed: set<Payload>)
    requires CollisionFree(env.rt) && i < |scores| && RowPayloads(contract, scores) <= signed
    ensures GenuineMember(env, EncodeScore(env.rt, signer, contract, scores[i], i + 1).member, score, signed)
  {
    hide ParseMember, Member;
    var row := RowOf(scores[i], i + 1);
    RowIsCanonical(scores[i], i + 1);
    forall other | ParseMember(env.rt, env.ring, other, Member(env.rt, signer, contract, row), score).Some?
      ensures RowPayload(other, ParseMember(env.rt, env.ring, other, Member(env.rt, signer, contract, row), score).value) in signed
    {
      MemberSaysWhatWasSigned(env.rt, env.ring, signer, contract, row, other, score);
      assert RowPayload(contract, RowOf(scores[i], i + 1)) in RowPayloads(contract, scores);
    }
  }

  lemma {:induction false} SetKeys(items: seq<Item>, m: string)
    requires m in ToSortedSet(items)
    ensures exists i :: 0 <= i < |items| && items[i].member == m
  {
    var n := |items| - 1;
    if m != items[n].member {
      SetKeys(items[..n], m);
      var i :| 0 <= i < n && items[..n][i].member == m;
      assert items[i].member == m;
    }
  }

  /** Publishing puts nothing into Redis that was not signed. */
  lemma WrittenIsGenuine(env: Env, redis: Redis, g: string, rb: Rebuild, signed: set<Payload>)
    requires CollisionFree(env.rt) && NoForgery(env, redis, signed) && Signatures(env, g, rb) <= signed
    ensures NoForgery(env, Written(env, redis, g, rb), signed)
  {
    hide ParseMember, Member, VerifyMetadata, MetadataFields, Metadata, RowPayload, GenuineFields, GenuineMember,
         EncodeScore;
    var contract := ContractOf(env, g, rb);
    var items := Encode(env.rt, rb.signer, contract, rb.scores);
    var redis' := Written(env, redis, g, rb);
    var key := KeyOf(g, rb);
    MergedFieldsGenuine(env, Found(redis.metadata, key, map[]), rb.signer, contract, signed);
    forall k, m | k in redis'.members && m in redis'.members[k]
      ensures GenuineMember(env, m, redis'.members[k][m], signed)
    {
      if k == key && items != [] && m in ToSortedSet(items) {
        SetKeys(items, m);
        var i :| 0 <= i < |items| && items[i].member == m;
        EncodedGenuine(env, rb.signer, contract, rb.scores, i, redis'.members[k][m], signed);
      } else {
        assert k in redis.members && m in redis.members[k] && redis'.members[k][m] == redis.members[k][m];
      }
    }
  }

  lemma LogKept(st: State, st': State)
    requires LogInv(st) && st'.log == st.log && st'.revisions == st.revisions
    ensures LogInv(st')
  {
    forall scope ensures ValidRows(Rows(st', scope)) && Revision(st', scope) == |Rows(st', scope)| {
      assert ValidRows(Rows(st, scope));
    }
  }

  lemma ReaderKept(env: Env, st: State, st': State)
    requires ReaderInv(env, st) && SignersKept(st, st')
    requires st'.log == st.log && st'.reader == st.reader && st.signed <= st'.signed
    ensures ReaderInv(env, st')
  {
    hide CanonicalRows, BoardAt, VerifyMetadata;
    if st.reader.phase.Described? {
      FieldsKept(env, st.reader.fields, st.signed, st'.signed);
    }
  }

  lemma FieldsKept(env: Env, fields: map<string, string>, signed: set<Payload>, signed': set<Payload>)
    requires GenuineFields(env, fields, signed) && signed <= signed'
    ensures GenuineFields(env, fields, signed')
  {
  }

  // ---------- steps of a rebuild ----------

  lemma RebuildStepIsSafe(env: Env, st: State, g: string, step: RebuildStep)
    requires CollisionFree(env.rt) && Safe(env, st)
    requires g in st.rebuilds && RebuildReady(env, st, g, st.rebuilds[g], step)
    ensures Safe(env, ApplyRebuild(env, st, g, step))
  {
    var st' := ApplyRebuild(env, st, g, step);
    RebuildStaysGood(env, st, g, step);
    SignersStay(env, st, g, step);
    SignedStays(env, st, g, step);
    RedisStaysGenuine(env, st, g, step);
    hide RebuildReady, NextRebuild, NextRedis, Signatures, GoodRebuild, SignersKept, CollisionFree;
    hide NoForgery, ReaderInv, LogInv, SignedInv, RebuildInv;
    LogKept(st, st');
    ReaderKept(env, st, st');
  }

  lemma RebuildStaysGood(env: Env, st: State, g: string, step: RebuildStep)
    requires LogInv(st) && RebuildInv(st)
    requires g in st.rebuilds && RebuildReady(env, st, g, st.rebuilds[g], step)
    ensures RebuildInv(ApplyRebuild(env, st, g, step))
  {
    var st' := ApplyRebuild(env, st, g, step);
    assert GoodRebuild(st, g);
    NextIsGood(env, st, g, step);
    forall h | h in st'.rebuilds ensures GoodRebuild(st', h) {
      if h != g {
        assert GoodRebuild(st, h);
        SameBoard(st, st', h);
      }
    }
  }

  lemma NextIsGood(env: Env, st: State, g: string, step: RebuildStep)
    requires LogInv(st) && g in st.rebuilds && RebuildReady(env, st, g, st.rebuilds[g], step) && GoodRebuild(st, g)
    ensures GoodRebuild(ApplyRebuild(env, st, g, step), g)
  {
    hide NextRedis, Signatures, Moved, UuidText, Encode, Listing, IsUuidText;
    var rows := Rows(st, st.rebuilds[g].scope);
    if step.ReadScores? {
      ValidPrefix(rows, |rows|);
      WholeBoard(rows);
    }
  }

  lemma SameBoard(st: State, st': State, g: string)
    requires g in st.rebuilds && g in st'.rebuilds && st'.rebuilds[g] == st.rebuilds[g] && st'.log == st.log
    requires GoodRebuild(st, g)
    ensures GoodRebuild(st', g)
  {
  }

  lemma SignersStay(env: Env, st: State, g: string, step: RebuildStep)
    requires g in st.rebuilds && RebuildReady(env, st, g, st.rebuilds[g], step)
    ensures SignersKept(st, ApplyRebuild(env, st, g, step))
  {
    hide NextRedis, Signatures, Moved, Encode, Listing;
  }

  /** What a rebuild signs does not depend on its phase. */
  lemma SignatureUnchanged(env: Env, g: string, rb: Rebuild, phase: Phase)
    ensures Signatures(env, g, rb.(phase := phase)) == Signatures(env, g, rb)
  {
  }

  lemma SignedStays(env: Env, st: State, g: string, step: RebuildStep)
    requires SignedInv(env, st) && g in st.rebuilds && RebuildReady(env, st, g, st.rebuilds[g], step)
    requires SignersKept(st, ApplyRebuild(env, st, g, step))
    ensures SignedInv(env, ApplyRebuild(env, st, g, step))
  {
    hide NextRedis, Moved, Encode, Listing;
    var st' := ApplyRebuild(env, st, g, step);
    if step.Publish? {
      SignatureUnchanged(env, g, st.rebuilds[g], st'.rebuilds[g].phase);
      forall p | p in st'.signed ensures exists h :: SignedBy(env, st', p, h) {
        NewlySigned(env, st, st', g, p);
      }
    } else {
      SignaturesKept(env, st, st');
    }
  }

  lemma NewlySigned(env: Env, st: State, st': State, g: string, p: Payload)
    requires SignedInv(env, st) && SignersKept(st, st') && g in st.rebuilds && g in st'.rebuilds
    requires PastSigning(st'.rebuilds[g].phase)
    requires Signatures(env, g, st'.rebuilds[g]) == Signatures(env, g, st.rebuilds[g])
    requires p in st.signed || p in Signatures(env, g, st.rebuilds[g])
    ensures exists h :: SignedBy(env, st', p, h)
  {
    if p in st.signed {
      var h :| SignedBy(env, st, p, h);
      assert SignedBy(env, st', p, h);
    } else {
      assert SignedBy(env, st', p, g);
    }
  }

  lemma RedisStaysGenuine(env: Env, st: State, g: string, step: RebuildStep)
    requires CollisionFree(env.rt) && NoForgery(env, st.redis, st.signed)
    requires g in st.rebuilds && RebuildReady(env, st, g, st.rebuilds[g], step)
    ensures var st' := ApplyRebuild(env, st, g, step); NoForgery(env, st'.redis, st'.signed)
  {
    var st' := ApplyRebuild(env, st, g, step);
    match step
    case Publish(applied, _) =>
      GenuineKept(env, st.redis, st.signed, st'.signed);
      if applied { WrittenIsGenuine(env, st.redis, g, st.rebuilds[g], st'.signed); }
    case _ => FewerKeysGenuine(env, st.redis, st'.redis, st.signed);
  }

  /** Taking keys away, or letting them expire, forges nothing. */
  lemma FewerKeysGenuine(env: Env, redis: Redis, redis': Redis, signed: set<Payload>)
    requires NoForgery(env, redis, signed)
    requires forall key | key in redis'.metadata :: key in redis.metadata && redis'.metadata[key] == redis.metadata[key]
    requires forall key | key in redis'.members :: key in redis.members && redis'.members[key] == redis.members[key]
    ensures NoForgery(env, redis', signed)
  {
    hide GenuineFields, GenuineMember;
  }

  lemma BeginIsSafe(env: Env, st: State, id: Uuid, scope: Scope, signer: string)
    requires Safe(env, st) && Enabled(env, st, Begin(id, scope, signer))
    ensures Safe(env, Apply(env, st, Begin(id, scope, signer)))
  {
    var st' := Apply(env, st, Begin(id, scope, signer));
    EmptyBoard(Rows(st, scope));
    assert IsUuidText(UuidText(id));
    hide UuidText, IsUuidText, NoForgery, Signatures, GenuineFields, LogInv;
    forall h | h in st'.rebuilds ensures GoodRebuild(st', h) {
      if h != UuidText(id) {
        assert GoodRebuild(st, h);
        SameBoard(st, st', h);
      }
    }
    LogKept(st, st');
    SignaturesKept(env, st, st');
    ReaderKept(env, st, st');
  }

  lemma EmptyBoard(rows: seq<Board.Score>)
    ensures BoardAt(rows, 0) == {} && Board.ValidBoard({}) && Board.Canonical({}) == []
  {
  }

  // ---------- Redis on its own ----------

  lemma RedisStepIsSafe(env: Env, st: State, redis: Redis)
    requires Safe(env, st) && NoForgery(env, redis, st.signed)
    ensures Safe(env, st.(redis := redis))
  {
    hide NoForgery, GoodRebuild, LogInv, SignedInv, ReaderInv;
    var st' := st.(redis := redis);
    LogKept(st, st');
    assert SignersKept(st, st');
    SignaturesKept(env, st, st');
    ReaderKept(env, st, st');
    forall g | g in st.rebuilds ensures GoodRebuild(st', g) {
      SameBoard(st, st', g);
    }
  }

  // ---------- steps of the reader ----------

  lemma ReaderStepIsSafe(env: Env, st: State, read: ReaderStep)
    requires ReadsBack(env.rt) && Safe(env, st) && ReaderReady(st, read)
    ensures Safe(env, st.(reader := NextReader(env, st, read)))
  {
    ReaderStepKeeps(env, st, read);
    hide ReaderReady, LogInv, RebuildInv, SignedInv, NoForgery, ReaderInv, NextReader;
    ReaderOnly(env, st, NextReader(env, st, read));
  }

  lemma ReaderOnly(env: Env, st: State, r: Reader)
    requires Safe(env, st) && ReaderInv(env, st.(reader := r))
    ensures Safe(env, st.(reader := r))
  {
    hide NoForgery, ReaderInv, LogInv, SignedInv, GoodRebuild;
    var st' := st.(reader := r);
    LogKept(st, st');
    assert SignersKept(st, st');
    SignaturesKept(env, st, st');
    forall g | g in st'.rebuilds ensures GoodRebuild(st', g) {
      SameBoard(st, st', g);
    }
  }

  lemma ReaderStepKeeps(env: Env, st: State, read: ReaderStep)
    requires ReadsBack(env.rt) && Safe(env, st) && ReaderReady(st, read)
    ensures ReaderInv(env, st.(reader := NextReader(env, st, read)))
  {
    match read
    case ReadRows => PageIsSafe(env, st);
    case ReadCardinality => VerifyIsSafe(env, st);
    case ReadMetadata => DescribeIsSafe(env, st);
    case FallBack => FallBackIsSafe(env, st);
    case _ => PlainReadIsSafe(env, st, read);
  }

  lemma PlainReadIsSafe(env: Env, st: State, read: ReaderStep)
    requires ReaderInv(env, st) && ReaderReady(st, read)
    requires !read.ReadRows? && !read.ReadCardinality? && !read.ReadMetadata? && !read.FallBack?
    ensures ReaderInv(env, st.(reader := NextReader(env, st, read)))
  {
    hide Listing, RankRow, UuidText, Normalized, GenuineFields, Correct;
  }

  lemma FallBackIsSafe(env: Env, st: State)
    requires ReaderInv(env, st) && ReaderReady(st, FallBack)
    ensures ReaderInv(env, st.(reader := NextReader(env, st, FallBack)))
  {
    WholeBoard(Rows(st, st.reader.scope));
    hide CanonicalRows, BoardAt;
  }

  lemma VerifyIsSafe(env: Env, st: State)
    requires ReadsBack(env.rt) && Safe(env, st) && ReaderReady(st, ReadCardinality)
    ensures ReaderInv(env, st.(reader := NextReader(env, st, ReadCardinality)))
  {
    hide LogInv, RebuildInv, SignedInv, NoForgery, VerifyMetadata, GenuineFields, ReadsBack, Correct;
    var r := st.reader;
    var contract := VerifyMetadata(env.rt, env.ring, r.fields, Wanted(r));
    if contract.Some? { VerifiedIsVouched(env, st, r, contract.value); }
  }

  lemma DescribeIsSafe(env: Env, st: State)
    requires Safe(env, st) && ReaderReady(st, ReadMetadata)
    ensures ReaderInv(env, st.(reader := NextReader(env, st, ReadMetadata)))
  {
    hide LogInv, RebuildInv, SignedInv, GenuineFields, GenuineMember, Correct, Vouched;
    EmptyFieldsGenuine(env, st.signed);
    assert GenuineFields(env, NextReader(env, st, ReadMetadata).fields, st.signed);
  }

  lemma EmptyFieldsGenuine(env: Env, signed: set<Payload>)
    ensures GenuineFields(env, map[], signed)
  {
    forall want ensures VerifyMetadata(env.rt, env.ring, map[], want).None? {
      assert "key_id" in FIELD_NAMES;
    }
  }

  lemma PageIsSafe(env: Env, st: State)
    requires Safe(env, st) && ReaderReady(st, ReadRows)
    ensures ReaderInv(env, st.(reader := NextReader(env, st, ReadRows)))
  {
    hide GenuineMember, GoodRebuild, SignedBy, AcceptPage, CanonicalRows, Listing, Range, ValidRows;
    var r := st.reader;
    var z := MembersAt(st.redis, r);
    var items := PageItems(st.redis, r);
    var page := AcceptPage(env.rt, env.ring, r.contract, items, r.count, r.offset, r.limit);
    if page.Some? {
      forall i | 0 <= i < |items| ensures GenuineMember(env, items[i].member, items[i].score, st.signed) {
        var k := RangeEntry(Listing(z), r.offset, r.offset + r.limit - 1, i);
        ListedIsStored(z, k);
      }
      AcceptedPageIsCanonical(env, st, items, page.value);
    }
  }

  // ---------- every step, every run ----------

  /** No step breaks the invariant. */
  lemma StepIsSafe(env: Env, st: State, ev: Event)
    requires ReadsBack(env.rt) && CollisionFree(env.rt) && Safe(env, st) && Enabled(env, st, ev)
    ensures Safe(env, Apply(env, st, ev))
  {
    hide Safe, ReadsBack, CollisionFree, NoForgery, RebuildReady, ReaderReady, ApplyRebuild, NextReader, Inserted,
         Insertable;
    match ev
    case InsertScore(scope, score) => InsertIsSafe(env, st, scope, score);
    case Begin(id, scope, signer) => BeginIsSafe(env, st, id, scope, signer);
    case Rebuilds(g, step) => RebuildStepIsSafe(env, st, g, step);
    case Reads(read) => ReaderStepIsSafe(env, st, read);
    case KeyExpires(key, part) => ExpiryIsSafe(env, st, key, part);
    case Tamper(redis) => RedisStepIsSafe(env, st, redis);
  }

  lemma ExpiryIsSafe(env: Env, st: State, key: Key, part: Part)
    requires Safe(env, st)
    ensures Safe(env, st.(redis := WithoutPart(st.redis, key, part)))
  {
    FewerKeysGenuine(env, st.redis, WithoutPart(st.redis, key, part), st.signed);
    RedisStepIsSafe(env, st, WithoutPart(st.redis, key, part));
  }

  /** The `i`-th step of a run is some enabled event. */
  ghost predicate Goes(env: Env, run: seq<State>, i: nat)
    requires i + 1 < |run|
  {
    CanStep(env, run[i], run[i + 1])
  }

  ghost predicate CanStep(env: Env, st: State, st': State) {
    exists ev :: Steps(env, st, ev, st')
  }

  ghost predicate Steps(env: Env, st: State, ev: Event, st': State) {
    Enabled(env, st, ev) && st' == Apply(env, st, ev)
  }

  /** A run of the whole system: its successive states. */
  ghost predicate IsRun(env: Env, run: seq<State>) {
    run != [] && Initial(env, run[0]) && forall i | 0 <= i < |run| - 1 :: Goes(env, run, i)
  }

  lemma {:induction false} RunIsSafe(env: Env, run: seq<State>, n: nat)
    requires ReadsBack(env.rt) && CollisionFree(env.rt) && IsRun(env, run) && n < |run|
    ensures Safe(env, run[n])
  {
    hide Safe, Enabled, Apply, ReadsBack, CollisionFree, Initial;
    if n == 0 {
      InitialIsSafe(env, run[0]);
    } else {
      RunIsSafe(env, run, n - 1);
      assert Goes(env, run, n - 1);
      var ev :| Steps(env, run[n - 1], ev, run[n]);
      StepIsSafe(env, run[n - 1], ev);
    }
  }

  /** In every run, the steps that sort a board are never held back: its rows satisfy the table's constraints. */
  lemma BoardsAreValid(env: Env, run: seq<State>, n: nat, scope: Scope)
    requires ReadsBack(env.rt) && CollisionFree(env.rt) && IsRun(env, run) && n < |run|
    ensures Board.ValidBoard(Elements(Rows(run[n], scope)))
    ensures run[n].reader.phase.FellBack? ==> ReaderReady(run[n], FallBack)
    ensures forall g | g in run[n].rebuilds && run[n].rebuilds[g].phase.Begun? ::
      RebuildReady(env, run[n], g, run[n].rebuilds[g], ReadScores)
  {
    hide IsRun, ReadsBack, CollisionFree, LogInv, Board.ValidBoard, Rows;
    RunIsSafe(env, run, n);
    BoardIsValid(run[n], scope);
    BoardIsValid(run[n], run[n].reader.scope);
    forall g | g in run[n].rebuilds && run[n].rebuilds[g].phase.Begun?
      ensures RebuildReady(env, run[n], g, run[n].rebuilds[g], ReadScores)
    {
      BoardIsValid(run[n], run[n].rebuilds[g].scope);
    }
  }

  // ---------- the main statement ----------

  /** What `LeaderboardProjectionReader.page` returns: it fetched one row more than it shows. */
  datatype Page = Page(items: seq<Row>, hasMore: bool)

  function PageOf(rows: seq<Row>, limit: nat): Page {
    Page(Board.Take(rows, limit), |rows| > limit)
  }

  /** The requested slice of the canonical ordering, and whether an entry lies beyond it. */
  ghost function CanonicalPage(board: set<Board.Score>, offset: nat, limit: nat): Page
    requires Board.ValidBoard(board)
  {
    Page(CanonicalRows(board, offset, limit), |board| > offset + limit)
  }

  lemma PageOfCanonicalRows(board: set<Board.Score>, offset: nat, limit: nat)
    requires Board.ValidBoard(board)
    ensures PageOf(CanonicalRows(board, offset, limit + 1), limit) == CanonicalPage(board, offset, limit)
  {
    hide Board.Canonical, RowOf;
    Board.PageSplits(Board.Canonical(board), offset, limit);
    assert Board.Take(CanonicalRows(board, offset, limit + 1), limit) == CanonicalRows(board, offset, limit);
  }

  /** The row has every column of the entry, each under its own name, and the rank. */
  predicate Shows(row: Row, s: Board.Score, rank: int) {
    && row.scoreId == UuidText(s.id) && row.sessionId == UuidText(s.session) && row.playerId == UuidText(s.player)
    && row.finalScore == s.points && row.completedAtUs == s.completedUs && row.rank == rank
  }

  /** The page shows the entries of the list from `offset` on, as many as there are up to `limit`. */
  predicate ShowsPage(page: Page, scores: seq<Board.Score>, offset: nat, limit: nat) {
    && |page.items| == (if |scores| <= offset then 0 else if |scores| - offset <= limit then |scores| - offset else limit)
    && (forall k | 0 <= k < |page.items| :: Shows(page.items[k], scores[offset + k], offset + k + 1))
    && (page.hasMore <==> |scores| > offset + limit)
  }

  lemma CanonicalPageShows(board: set<Board.Score>, offset: nat, limit: nat)
    requires Board.ValidBoard(board)
    ensures ShowsPage(CanonicalPage(board, offset, limit), Board.Canonical(board), offset, limit)
  {
    hide UuidText, Board.Canonical;
    var scores, page := Board.Canonical(board), CanonicalPage(board, offset, limit);
    var slice := Board.Slice(scores, offset, limit);
    forall k | 0 <= k < |page.items| ensures Shows(page.items[k], scores[offset + k], offset + k + 1) {
      assert slice[k] == scores[offset + k];
    }
  }

  ghost predicate SameRequest(r: Reader, r': Reader) {
    !r'.phase.Idle? && r'.scope == r.scope && r'.offset == r.offset && r'.limit == r.limit && r'.count == r.count
  }

  lemma StepKeepsRequest(env: Env, st: State, ev: Event, scope: Scope)
    requires Enabled(env, st, ev)
    ensures Rows(st, scope) <= Rows(Apply(env, st, ev), scope)
    ensures !st.reader.phase.Idle? ==> SameRequest(st.reader, Apply(env, st, ev).reader)
  {
    hide NextReader, ReaderReady, NextRebuild, NextRedis, Signatures, Moved, NoForgery, RebuildReady, UuidText;
    if ev.Reads? { ReadKeepsRequest(env, st, ev.read); }
  }

  lemma ReadKeepsRequest(env: Env, st: State, read: ReaderStep)
    requires ReaderReady(st, read)
    ensures !st.reader.phase.Idle? ==> SameRequest(st.reader, NextReader(env, st, read))
  {
    hide VerifyMetadata, AcceptPage, Listing, Range, CanonicalRows, RankRow, UuidText, Normalized;
  }

  lemma {:induction false} RunKeepsRequest(env: Env, run: seq<State>, m: nat, n: nat, scope: Scope)
    requires IsRun(env, run) && m <= n < |run|
    ensures Rows(run[m], scope) <= Rows(run[n], scope)
    ensures !run[m].reader.phase.Idle? ==> !run[n].reader.phase.Idle? && (m < n ==> SameRequest(run[m].reader, run[n].reader))
    decreases n - m
  {
    hide Enabled, Apply, Rows, Initial;
    if m < n {
      assert Goes(env, run, n - 1);
      var ev :| Steps(env, run[n - 1], ev, run[n]);
      StepKeepsRequest(env, run[n - 1], ev, scope);
      RunKeepsRequest(env, run, m, n - 1, scope);
    }
  }

  /** What a page served for `request` must be: canonical at one instant not before the count, and from Redis at
      the count. One row more is asked for than is shown. */
  ghost predicate PageIsRight(counting: State, request: Reader, end: State) {
    var rows := Rows(end, request.scope);
    var r := end.reader;
    && request.limit >= 1
    && |Rows(counting, request.scope)| <= r.instant <= |rows|
    && Board.ValidBoard(BoardAt(rows, r.instant))
    && ShowsPage(PageOf(r.rows, request.limit - 1), Board.Canonical(BoardAt(rows, r.instant)), request.offset,
                 request.limit - 1)
    && (r.fromRedis ==> BoardAt(rows, r.instant) == Elements(Rows(counting, request.scope)))
  }

  /** In every run, whatever is inserted, rebuilt or overwritten in between: a page served from Redis is the
      canonical page of the table as it stood at step `i`, when the reader counted its rows, and a page served by
      falling back is that of one later instant. */
  lemma PageIsCanonicalAtOneInstant(env: Env, run: seq<State>, i: nat, j: nat)
    requires ReadsBack(env.rt) && CollisionFree(env.rt) && IsRun(env, run) && i + 1 <= j < |run|
    requires run[i].reader.phase.Idle? && run[i + 1].reader.phase.Counted?
    ensures run[j].reader.phase.Served? ==> PageIsRight(run[i], run[i + 1].reader, run[j])
  {
    hide ReadsBack, CollisionFree, Safe, PageIsRight, Rows, Steps;
    if run[j].reader.phase.Served? {
      RunIsSafe(env, run, j);
      RunKeepsRequest(env, run, i + 1, j, run[i + 1].reader.scope);
      assert Goes(env, run, i);
      var ev :| Steps(env, run[i], ev, run[i + 1]);
      hide IsRun;
      Counting(env, run[i], ev, run[i + 1]);
      CountedPage(env, run[i], run[i + 1], run[j]);
    }
  }

  /** Only the counting statement takes the reader out of its first phase. */
  lemma Counting(env: Env, st: State, ev: Event, st': State)
    requires Steps(env, st, ev, st') && st.reader.phase.Idle? && st'.reader.phase.Counted?
    ensures st'.log == st.log && st'.reader.limit >= 1 && st'.reader.count == |Rows(st, st'.reader.scope)|
  {
    hide Rows, NextRedis, NextRebuild, Signatures, Moved, NoForgery, RebuildReady, Insertable, UuidText;
  }

  lemma CountedPage(env: Env, counting: State, counted: State, end: State)
    requires counted.log == counting.log && counted.reader.limit >= 1
    requires counted.reader.count == |Rows(counting, counted.reader.scope)|
    requires Rows(counted, counted.reader.scope) <= Rows(end, counted.reader.scope)
    requires Safe(env, end) && end.reader.phase.Served?
    requires end.reader == counted.reader || SameRequest(counted.reader, end.reader)
    ensures PageIsRight(counting, counted.reader, end)
  {
    hide LogInv, RebuildInv, SignedInv, NoForgery, PageOf, CanonicalPage, BoardAt, ShowsPage;
    CountedBoard(counting, counted, counted.reader.scope, end);
    ServedPage(env, end, counted.reader.limit - 1);
    CanonicalPageShows(BoardAt(Rows(end, end.reader.scope), end.reader.instant), end.reader.offset, end.reader.limit - 1);
  }

  lemma ServedPage(env: Env, st: State, limit: nat)
    requires Safe(env, st) && st.reader.limit == limit + 1 && st.reader.phase.Served?
    ensures var r := st.reader;
      && r.count <= r.instant <= |Rows(st, r.scope)| && Board.ValidBoard(BoardAt(Rows(st, r.scope), r.instant))
      && PageOf(r.rows, limit) == CanonicalPage(BoardAt(Rows(st, r.scope), r.instant), r.offset, limit)
  {
    var r := st.reader;
    assert Correct(st, r);
    PageOfCanonicalRows(BoardAt(Rows(st, r.scope), r.instant), r.offset, limit);
  }

  lemma CountedBoard(counting: State, counted: State, scope: Scope, end: State)
    requires counted.log == counting.log && counted.reader.count == |Rows(counting, scope)|
    requires Rows(counted, scope) <= Rows(end, scope)
    ensures BoardAt(Rows(end, scope), |Rows(counting, scope)|) == Elements(Rows(counting, scope))
  {
    assert Rows(counted, scope) == Rows(counting, scope);
    BoardAtKept(Rows(counting, scope), Rows(end, scope), |Rows(counting, scope)|);
    WholeBoard(Rows(counting, scope));
  }
}
