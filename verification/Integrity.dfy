/** Signed projection metadata and members, with rotatable keys.

    Python's `int(text)`, `UUID(text)`, the key identifier (a truncated SHA-256) and HMAC-SHA256 over a
    canonical payload (section 2 of RFC 2104) are function values: every statement holds for all of them
    that satisfy the assumptions it names. */
module Integrity {
  import opened Text

  /** What is signed: canonical JSON of one of two records, kept apart by their key sets. */
  datatype Payload =
    | MetadataPayload(fields: map<string, string>)
    | MemberPayload(encodingVersion: string, gameKey: string, periodStart: string, generation: string,
                    completedAtUs: int, sessionId: string, scoreId: string, playerId: string,
                    finalScore: int, rank: int)

  datatype Runtime = Runtime(
    parseInt: string -> Option<int>,
    parseUuid: string -> Option<Uuid>,
    keyId: string -> string,
    mac: (string, Payload) -> string)

  /** `int(str(n)) == n`, also for padded text, and `UUID(str(u)) == u`; any other text may parse to
      anything or be refused. */
  ghost predicate ReadsBack(rt: Runtime) {
    && (forall n: nat :: rt.parseInt(Decimal(n)) == Some(n))
    && (forall n: int :: rt.parseInt(Padded(n)) == Some(n))
    && (forall u: Uuid :: rt.parseUuid(UuidText(u)) == Some(u))
  }

  /** No two payloads share a signature, under any keys. */
  ghost predicate CollisionFree(rt: Runtime) {
    forall k1, k2, p, q :: rt.mac(k1, p) == rt.mac(k2, q) ==> p == q
  }

  // ---------- keys ----------

  datatype Keyring = Keyring(current: string, previous: Option<string>)

  /** `_verification_keys[id]`: the previous secret is stored last and wins a clash of identifiers. */
  function Secret(rt: Runtime, ring: Keyring, id: string): Option<string> {
    if ring.previous.Some? && rt.keyId(ring.previous.value) == id then ring.previous
    else if rt.keyId(ring.current) == id then Some(ring.current)
    else None
  }

  /** The reader `ring` still resolves what a process signing with `signer` writes. */
  predicate Resolves(rt: Runtime, ring: Keyring, signer: string) {
    Secret(rt, ring, rt.keyId(signer)) == Some(signer)
  }

  /** After a rotation that keeps the old secret as the previous one, everything signed before still
      resolves; what is signed now resolves exactly when the two secrets are told apart by their
      identifiers (or are the same). */
  lemma Rotation(rt: Runtime, oldSecret: string, newSecret: string)
    ensures var ring := Keyring(newSecret, Some(oldSecret));
            && Resolves(rt, ring, oldSecret)
            && (Resolves(rt, ring, newSecret)
                <==> rt.keyId(oldSecret) != rt.keyId(newSecret) || oldSecret == newSecret)
  {
  }

  /** The secret that an identifier stands for: the previous one before the current one. */
  predicate StandsFor(rt: Runtime, ring: Keyring, id: string, secret: string) {
    || (ring.previous == Some(secret) && rt.keyId(secret) == id)
    || (ring.current == secret && rt.keyId(secret) == id && (ring.previous.Some? ==> rt.keyId(ring.previous.value) != id))
  }

  lemma SecretStandsFor(rt: Runtime, ring: Keyring, id: string, secret: string)
    ensures Secret(rt, ring, id) == Some(secret) <==> StandsFor(rt, ring, id, secret)
  {
  }

  // ---------- metadata ----------

  const ENCODING_VERSION: string := "v2"

  datatype Contract = Contract(
    gameKey: string, periodStart: string, generation: string,
    revision: int, count: int, encodingVersion: string, keyId: string)

  function MetadataFields(contract: Contract): map<string, string>
    requires contract.revision >= 0 && contract.count >= 0
  {
    map["game_key" := contract.gameKey,
        "period_start" := contract.periodStart,
        "generation" := contract.generation,
        "revision" := Decimal(contract.revision),
        "count" := Decimal(contract.count),
        "encoding_version" := contract.encodingVersion,
        "key_id" := contract.keyId]
  }

  /** `ProjectionIntegrity.metadata`. */
  function Metadata(rt: Runtime, signer: string, contract: Contract): map<string, string>
    requires contract.revision >= 0 && contract.count >= 0
  {
    var fields := MetadataFields(contract.(keyId := rt.keyId(signer)));
    fields["signature" := rt.mac(signer, MetadataPayload(fields))]
  }

  const FIELD_NAMES: set<string> := {"game_key", "period_start", "generation", "revision", "count",
                                     "encoding_version", "key_id", "signature"}

  /** The expectations a reader brings to `verify_metadata`. */
  datatype Expectation = Expectation(
    gameKey: string, periodStart: string, generation: string, revision: int, count: int)

  /** `ProjectionIntegrity.verify_metadata`. */
  function VerifyMetadata(rt: Runtime, ring: Keyring, fields: map<string, string>, want: Expectation)
    : Option<Contract>
  {
    if !(FIELD_NAMES <= fields.Keys) then
      None
    else
      var unsigned := fields - {"signature"};
      match (Secret(rt, ring, unsigned["key_id"]), rt.parseInt(unsigned["revision"]), rt.parseInt(unsigned["count"]))
      case (Some(secret), Some(revision), Some(count)) =>
        var contract := Contract(unsigned["game_key"], unsigned["period_start"], unsigned["generation"],
                                 revision, count, unsigned["encoding_version"], unsigned["key_id"]);
        if fields.Keys != FIELD_NAMES then None
        else if fields["signature"] != rt.mac(secret, MetadataPayload(unsigned)) then None
        else if contract.gameKey != want.gameKey || contract.periodStart != want.periodStart
                || contract.generation != want.generation || contract.revision != want.revision
                || contract.count != want.count || contract.encodingVersion != ENCODING_VERSION then None
        else Some(contract)
      case _ => None
  }

  /** Published metadata verifies against its own facts, and against no others. */
  lemma MetadataVerifies(rt: Runtime, ring: Keyring, signer: string, contract: Contract, want: Expectation)
    requires ReadsBack(rt) && Resolves(rt, ring, signer)
    requires contract.revision >= 0 && contract.count >= 0
    ensures VerifyMetadata(rt, ring, Metadata(rt, signer, contract), want)
         == if contract.encodingVersion == "v2"
               && want == Expectation(contract.gameKey, contract.periodStart, contract.generation, contract.revision, contract.count)
            then Some(contract.(keyId := rt.keyId(signer))) else None
  {
    var fields := Metadata(rt, signer, contract);
    MetadataUnsigned(rt, signer, contract);
    assert fields.Keys == FIELD_NAMES;
  }

  /** The hash has exactly the eight fields, says what the reader expects, in this encoding, and carries the signature of a
      secret of the reader over all its other fields. */
  ghost predicate MetadataSays(rt: Runtime, ring: Keyring, fields: map<string, string>, want: Expectation) {
    && fields.Keys == {"game_key", "period_start", "generation", "revision", "count", "encoding_version", "key_id", "signature"}
    && fields["game_key"] == want.gameKey && fields["period_start"] == want.periodStart
    && fields["generation"] == want.generation && fields["encoding_version"] == "v2"
    && rt.parseInt(fields["revision"]) == Some(want.revision) && rt.parseInt(fields["count"]) == Some(want.count)
    && exists secret :: StandsFor(rt, ring, fields["key_id"], secret)
         && fields["signature"] == rt.mac(secret, MetadataPayload(fields - {"signature"}))
  }

  /** The contract repeats what the hash says. */
  ghost predicate ContractSays(contract: Contract, fields: map<string, string>, want: Expectation) {
    && "key_id" in fields
    && contract == Contract(want.gameKey, want.periodStart, want.generation, want.revision, want.count, "v2", fields["key_id"])
  }

  /** Metadata is accepted exactly if it says what is expected, and then as that. */
  lemma AcceptedMetadata(rt: Runtime, ring: Keyring, fields: map<string, string>, want: Expectation)
    ensures VerifyMetadata(rt, ring, fields, want).Some? <==> MetadataSays(rt, ring, fields, want)
    ensures VerifyMetadata(rt, ring, fields, want).Some? ==>
      ContractSays(VerifyMetadata(rt, ring, fields, want).value, fields, want)
  {
    if "key_id" in fields {
      var secret := Secret(rt, ring, fields["key_id"]);
      if secret.Some? { SecretStandsFor(rt, ring, fields["key_id"], secret.value); }
      forall other ensures StandsFor(rt, ring, fields["key_id"], other) <==> secret == Some(other) {
        SecretStandsFor(rt, ring, fields["key_id"], other);
      }
    }
    hide Secret, StandsFor;
  }

  /** What an accepted set of fields is known to say. */
  lemma VerifiedFields(rt: Runtime, ring: Keyring, fields: map<string, string>, want: Expectation)
    requires VerifyMetadata(rt, ring, fields, want).Some?
    ensures var contract := VerifyMetadata(rt, ring, fields, want).value;
            var unsigned := fields - {"signature"};
            && contract.generation == want.generation
            && fields.Keys == FIELD_NAMES
            && SaysWhatIsWanted(rt, unsigned, want)
  {
  }

  ghost predicate SaysWhatIsWanted(rt: Runtime, unsigned: map<string, string>, want: Expectation) {
    && {"game_key", "period_start", "generation", "count"} <= unsigned.Keys
    && unsigned["game_key"] == want.gameKey
    && unsigned["period_start"] == want.periodStart
    && unsigned["generation"] == want.generation
    && rt.parseInt(unsigned["count"]) == Some(want.count)
  }

  lemma PublishedFields(rt: Runtime, contract: Contract, want: Expectation)
    requires ReadsBack(rt) && contract.revision >= 0 && contract.count >= 0
    requires SaysWhatIsWanted(rt, MetadataFields(contract), want)
    ensures contract.gameKey == want.gameKey && contract.periodStart == want.periodStart
    ensures contract.generation == want.generation && contract.count == want.count
  {
  }

  lemma MetadataUnsigned(rt: Runtime, signer: string, contract: Contract)
    requires contract.revision >= 0 && contract.count >= 0
    ensures Metadata(rt, signer, contract) - {"signature"} == MetadataFields(contract.(keyId := rt.keyId(signer)))
  {
  }

  // ---------- members ----------

  /** A sorted-set score. Redis scores are never NaN. */
  datatype Float = NegativeInfinity | Finite(value: real) | PositiveInfinity

  /** What `parse_member` returns. */
  datatype Row = Row(completedAtUs: int, sessionId: string, scoreId: string, playerId: string,
                     finalScore: int, rank: int)

  function RowPayload(contract: Contract, row: Row): Payload {
    MemberPayload(contract.encodingVersion, contract.gameKey, contract.periodStart, contract.generation,
                  row.completedAtUs, row.sessionId, row.scoreId, row.playerId, row.finalScore, row.rank)
  }

  function Join(fields: seq<string>): string {
    if fields == [] then ""
    else if |fields| == 1 then fields[0]
    else fields[0] + ":" + Join(fields[1..])
  }

  /** `ProjectionIntegrity.member`. */
  function Member(rt: Runtime, signer: string, contract: Contract, row: Row): string {
    Join([Padded(row.completedAtUs), row.sessionId, row.scoreId, row.playerId, Padded(row.rank),
          rt.mac(signer, RowPayload(contract, row))])
  }

  /** `text.split(":", cuts)`. */
  function Split(text: string, cuts: nat): (fields: seq<string>)
    ensures |fields| >= 1
    decreases |text|, cuts
  {
    if cuts == 0 || text == "" then
      [text]
    else if text[0] == ':' then
      [""] + Split(text[1..], cuts - 1)
    else
      var rest := Split(text[1..], cuts);
      [[text[0]] + rest[0]] + rest[1..]
  }

  /** `ProjectionIntegrity.parse_member`. */
  function ParseMember(rt: Runtime, ring: Keyring, contract: Contract, member: string, score: Float)
    : Option<Row>
  {
    var fields := Split(member, 5);
    if |fields| != 6 then
      None
    else
      match (rt.parseInt(fields[0]), rt.parseInt(fields[4]), rt.parseUuid(fields[1]), rt.parseUuid(fields[2]),
             rt.parseUuid(fields[3]), Secret(rt, ring, contract.keyId))
      case (Some(completed), Some(rank), Some(session), Some(scoreId), Some(player), Some(secret)) =>
        if fields[0] != Padded(completed) then None
        else if rank < 1 || fields[4] != Padded(rank) then None
        else if !score.Finite? || score.value.Floor as real != score.value then None
        else
          var row := Row(completed, UuidText(session), UuidText(scoreId), UuidText(player), -score.value.Floor, rank);
          if fields[5] != rt.mac(secret, RowPayload(contract, row)) then None else Some(row)
      case _ => None
  }

  /** What a member is signed over: every field of the row and of the contract under its own name. */
  predicate Describes(p: Payload, contract: Contract, row: Row) {
    && p.MemberPayload? && p.encodingVersion == contract.encodingVersion && p.gameKey == contract.gameKey
    && p.periodStart == contract.periodStart && p.generation == contract.generation
    && p.completedAtUs == row.completedAtUs && p.sessionId == row.sessionId && p.scoreId == row.scoreId
    && p.playerId == row.playerId && p.finalScore == row.finalScore && p.rank == row.rank
  }

  ghost predicate Spells(rt: Runtime, text: string, id: string) {
    exists u: Uuid :: rt.parseUuid(text) == Some(u) && id == UuidText(u)
  }

  ghost predicate SignsRow(rt: Runtime, ring: Keyring, contract: Contract, row: Row, signature: string) {
    exists secret, p :: StandsFor(rt, ring, contract.keyId, secret) && Describes(p, contract, row) && signature == rt.mac(secret, p)
  }

  /** The six fields are those of the row, the numbers in their padded form, and the score is the whole number that belongs
      to it; the last field is the signature of the key that the contract names over all of that. */
  ghost predicate MemberSays(rt: Runtime, ring: Keyring, contract: Contract, fields: seq<string>, score: Float,
                             row: Row) {
    && |fields| == 6
    && fields[0] == Padded(row.completedAtUs) && rt.parseInt(fields[0]) == Some(row.completedAtUs)
    && Spells(rt, fields[1], row.sessionId) && Spells(rt, fields[2], row.scoreId) && Spells(rt, fields[3], row.playerId)
    && row.rank >= 1 && fields[4] == Padded(row.rank) && rt.parseInt(fields[4]) == Some(row.rank)
    && score == Finite((-row.finalScore) as real)
    && SignsRow(rt, ring, contract, row, fields[5])
  }

  /** A member is accepted as a row exactly if it says that row. */
  lemma AcceptedMember(rt: Runtime, ring: Keyring, contract: Contract, member: string, score: Float, row: Row)
    ensures ParseMember(rt, ring, contract, member, score) == Some(row)
       <==> MemberSays(rt, ring, contract, Split(member, 5), score, row)
  {
    hide Split, UuidText, Padded, Secret, StandsFor;
    var fields := Split(member, 5);
    if ParseMember(rt, ring, contract, member, score) == Some(row) {
      SecretStandsFor(rt, ring, contract.keyId, Secret(rt, ring, contract.keyId).value);
      assert Describes(RowPayload(contract, row), contract, row);
    }
    if MemberSays(rt, ring, contract, fields, score, row) {
      var secret, p :| StandsFor(rt, ring, contract.keyId, secret) && Describes(p, contract, row) && fields[5] == rt.mac(secret, p);
      SecretStandsFor(rt, ring, contract.keyId, secret);
      assert p == RowPayload(contract, row);
      assert ((-row.finalScore) as real).Floor == -row.finalScore;
    }
  }

  /** The text that is signed and stored for a row. */
  lemma MemberIsText(rt: Runtime, signer: string, contract: Contract, row: Row) returns (p: Payload)
    ensures Describes(p, contract, row)
    ensures Member(rt, signer, contract, row)
         == Padded(row.completedAtUs) + ":" + row.sessionId + ":" + row.scoreId + ":" + row.playerId + ":" + Padded(row.rank)
            + ":" + rt.mac(signer, p)
  {
    hide Padded;
    p := RowPayload(contract, row);
    var sig := rt.mac(signer, p);
    assert Join([sig]) == sig;
    assert Join([Padded(row.rank), sig]) == Padded(row.rank) + ":" + sig;
    assert Join([row.playerId, Padded(row.rank), sig]) == row.playerId + ":" + (Padded(row.rank) + ":" + sig);
    assert Join([row.scoreId, row.playerId, Padded(row.rank), sig])
        == row.scoreId + ":" + (row.playerId + ":" + (Padded(row.rank) + ":" + sig));
    assert Join([row.sessionId, row.scoreId, row.playerId, Padded(row.rank), sig])
        == row.sessionId + ":" + (row.scoreId + ":" + (row.playerId + ":" + (Padded(row.rank) + ":" + sig)));
  }

  lemma {:induction false} SplitField(field: string, rest: string, cuts: nat)
    requires NoColon(field) && cuts > 0
    ensures Split(field + ":" + rest, cuts) == [field] + Split(rest, cuts - 1)
  {
    var text := field + ":" + rest;
    if field == "" {
      assert text[1..] == rest;
    } else {
      assert text[1..] == field[1..] + ":" + rest;
      SplitField(field[1..], rest, cuts);
      assert [text[0]] + field[1..] == field;
    }
  }

  /** Fields without a colon come apart where they were joined; the last may hold anything. */
  lemma {:induction false} SplitJoin(fields: seq<string>)
    requires fields != [] && forall i | 0 <= i < |fields| - 1 :: NoColon(fields[i])
    ensures Split(Join(fields), |fields| - 1) == fields
  {
    if |fields| > 1 {
      SplitJoin(fields[1..]);
      SplitField(fields[0], Join(fields[1..]), |fields| - 1);
    }
  }

  /** The identifiers in a row are canonical UUID text. */
  ghost predicate CanonicalIds(row: Row) {
    && (exists u: Uuid :: row.sessionId == UuidText(u))
    && (exists u: Uuid :: row.scoreId == UuidText(u))
    && (exists u: Uuid :: row.playerId == UuidText(u))
  }

  lemma MemberFields(rt: Runtime, signer: string, contract: Contract, row: Row)
    requires CanonicalIds(row)
    ensures Split(Member(rt, signer, contract, row), 5)
         == [Padded(row.completedAtUs), row.sessionId, row.scoreId, row.playerId, Padded(row.rank),
             rt.mac(signer, RowPayload(contract, row))]
  {
    var s: Uuid :| row.sessionId == UuidText(s);
    var i: Uuid :| row.scoreId == UuidText(i);
    var p: Uuid :| row.playerId == UuidText(p);
    UuidNoColon(s);
    UuidNoColon(i);
    UuidNoColon(p);
    PaddedNoColon(row.completedAtUs);
    PaddedNoColon(row.rank);
    SplitJoin([Padded(row.completedAtUs), row.sessionId, row.scoreId, row.playerId, Padded(row.rank),
               rt.mac(signer, RowPayload(contract, row))]);
  }

  /** `parse_member` returns exactly the fields given to `member`, for the score Redis holds, as long as
      the reader's keys resolve the signer: in particular after a rotation. */
  lemma MemberRoundTrip(rt: Runtime, ring: Keyring, signer: string, contract: Contract, row: Row)
    requires ReadsBack(rt) && Resolves(rt, ring, signer) && contract.keyId == rt.keyId(signer)
    requires CanonicalIds(row) && row.rank >= 1
    ensures ParseMember(rt, ring, contract, Member(rt, signer, contract, row), Finite(-row.finalScore as real)) == Some(row)
  {
    MemberFields(rt, signer, contract, row);
    var s: Uuid :| row.sessionId == UuidText(s);
    var i: Uuid :| row.scoreId == UuidText(i);
    var p: Uuid :| row.playerId == UuidText(p);
    assert rt.parseUuid(UuidText(s)) == Some(s) && rt.parseUuid(UuidText(i)) == Some(i) && rt.parseUuid(UuidText(p)) == Some(p);
    assert (-row.finalScore as real).Floor == -row.finalScore;
  }

  /** A genuine member, read under any contract and with any score, yields nothing but the row that was
      signed into it: its signature covers the scope, the generation, the score and the rank. */
  lemma MemberSaysWhatWasSigned(rt: Runtime, ring: Keyring, signer: string, contract: Contract, row: Row,
                                other: Contract, score: Float)
    requires CollisionFree(rt) && CanonicalIds(row)
    ensures var parsed := ParseMember(rt, ring, other, Member(rt, signer, contract, row), score);
            parsed.Some? ==> RowPayload(other, parsed.value) == RowPayload(contract, row)
  {
    MemberFields(rt, signer, contract, row);
  }
}
