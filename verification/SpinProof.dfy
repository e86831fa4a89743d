/** Drawing a daily-spin reward from committed seeds, and verifying a published draw. */
module SpinProof {
  import opened Text
  import opened Bytes
  import opened Rng
  import opened Encoding

  /** SHA-256 and HMAC-SHA-256 (section 2 of RFC 2104). */
  datatype Crypto = Crypto(sha256: seq<Byte> -> Digest, hmac: (seq<Byte>, seq<Byte>) -> Digest)

  const PROTOCOL_VERSION: string := "rng-game-platform-pvf-v1"
  const ALGORITHM: string := "hmac-sha256"
  const MAPPING_VERSION: string := "daily-spin-weighted-reward-v1"

  datatype FairnessError = UnsupportedVersion | InvalidSeed | InvalidNonce | InvalidRewardMapping | InvalidInput

  datatype DrawResult<T> = Ok(value: T) | Err(error: FairnessError)

  datatype Versions = Versions(gameKey: string, protocolVersion: string, algorithm: string, mappingVersion: string)

  const SUPPORTED: Versions := Versions(DAILY_SPIN_GAME_KEY, PROTOCOL_VERSION, ALGORITHM, MAPPING_VERSION)

  datatype SpinInput = SpinInput(versions: Versions, serverSeed: seq<Byte>, clientSeed: seq<CodePoint>, nonce: int,
                                 configVersionId: Uuid, sessionId: Uuid, bands: seq<RewardBand>)

  datatype Derivation = Derivation(mappingDigest: string, rawDigestHex: string, rawValue: nat, normalizedValue: int,
                                   attempt: nat, reward: RewardBand)

  // ---------- derivation ----------

  /** The first check that fails. */
  function InputError(input: SpinInput): Option<FairnessError> {
    if |input.serverSeed| != 32 then Some(InvalidSeed)
    else if input.versions != SUPPORTED then Some(UnsupportedVersion)
    else if !(0 <= input.nonce <= MAX_NONCE) then Some(InvalidNonce)
    else if !ValidBands(input.bands) then Some(InvalidRewardMapping)
    else if !ValidClientSeed(input.clientSeed) then Some(InvalidSeed)
    else None
  }

  predicate ValidInput(input: SpinInput) {
    InputError(input).None?
  }

  function MappingDigest(crypto: Crypto, bands: seq<RewardBand>): string
    requires ValidBands(bands)
  {
    Hex(crypto.sha256(DailySpinMappingBytes(bands)))
  }

  lemma MappingDigestIsDigest(crypto: Crypto, bands: seq<RewardBand>)
    requires ValidBands(bands)
    ensures IsDigestText(MappingDigest(crypto, bands))
  {
    HexIsDigits(crypto.sha256(DailySpinMappingBytes(bands)));
  }

  function Message(crypto: Crypto, input: SpinInput, attempt: nat): seq<Byte>
    requires ValidInput(input)
  {
    MappingDigestIsDigest(crypto, input.bands);
    DerivationMessage(MessageInput(input.clientSeed, input.nonce, input.configVersionId, input.sessionId,
                                   MappingDigest(crypto, input.bands), attempt))
  }

  /** The digest of one attempt. */
  function Raw(crypto: Crypto, input: SpinInput, attempt: nat): Digest
    requires ValidInput(input)
  {
    crypto.hmac(input.serverSeed, Message(crypto, input, attempt))
  }

  predicate Accepted(crypto: Crypto, input: SpinInput, attempt: nat)
    requires ValidInput(input)
  {
    TotalIsPositive(input.bands);
    Number(Raw(crypto, input, attempt)) < Limit(TotalWeight(input.bands))
  }

  /** Some attempt is accepted, so the loop ends. */
  ghost predicate Ends(crypto: Crypto, input: SpinInput)
    requires ValidInput(input)
  {
    exists attempt: nat :: Accepted(crypto, input, attempt)
  }

  ghost predicate IsFirst(crypto: Crypto, input: SpinInput, attempt: nat)
    requires ValidInput(input)
  {
    Accepted(crypto, input, attempt) && forall earlier: nat | earlier < attempt :: !Accepted(crypto, input, earlier)
  }

  lemma {:induction false} FirstExists(crypto: Crypto, input: SpinInput, from: nat, enough: nat) returns (first: nat)
    requires ValidInput(input) && from <= enough && Accepted(crypto, input, enough)
    requires forall earlier: nat | earlier < from :: !Accepted(crypto, input, earlier)
    ensures IsFirst(crypto, input, first)
    decreases enough - from
  {
    hide Accepted, ValidInput;
    if Accepted(crypto, input, from) { first := from; } else { first := FirstExists(crypto, input, from + 1, enough); }
  }

  /** The least accepted attempt. */
  ghost function First(crypto: Crypto, input: SpinInput): (first: nat)
    requires ValidInput(input) && Ends(crypto, input)
    ensures IsFirst(crypto, input, first)
  {
    assert exists first: nat :: IsFirst(crypto, input, first) by {
      var enough: nat :| Accepted(crypto, input, enough);
      var first := FirstExists(crypto, input, 0, enough);
    }
    var first: nat :| IsFirst(crypto, input, first);
    first
  }

  /** What one accepted attempt yields. */
  ghost function DerivationAt(crypto: Crypto, input: SpinInput, attempt: nat): Derivation
    requires ValidInput(input)
  {
    TotalIsPositive(input.bands);
    var raw := Raw(crypto, input, attempt);
    var normalized := Number(raw) % TotalWeight(input.bands);
    Derivation(MappingDigest(crypto, input.bands), Hex(raw), Number(raw), normalized, attempt,
               input.bands[Selected(input.bands, normalized)])
  }

  ghost function Derived(crypto: Crypto, input: SpinInput): Derivation
    requires ValidInput(input) && Ends(crypto, input)
  {
    DerivationAt(crypto, input, First(crypto, input))
  }

  lemma FirstIsUnique(crypto: Crypto, input: SpinInput, attempt: nat)
    requires ValidInput(input) && IsFirst(crypto, input, attempt)
    ensures Ends(crypto, input) && First(crypto, input) == attempt
  {
    hide Accepted, ValidInput;
  }

  // ---------- the evidence in terms of the protocol ----------

  /** The message names every input of the draw under its own field. */
  ghost predicate Says(input: SpinInput, mappingDigest: string, attempt: nat, message: seq<Byte>) {
    && Utf8(input.clientSeed).Some? && input.nonce >= 0
    && ReadMessage(message)
       == Some(MessageFields(Ascii("daily_spin"), Ascii(UuidText(input.configVersionId)), Ascii(UuidText(input.sessionId)),
                             Utf8(input.clientSeed).value, input.nonce, Ascii(mappingDigest), attempt))
  }

  /** The digest is the HMAC, keyed by the server seed, of a message for that attempt. */
  ghost predicate AnswersTo(crypto: Crypto, input: SpinInput, mappingDigest: string, attempt: nat, digest: Digest) {
    exists message :: Says(input, mappingDigest, attempt, message) && digest == crypto.hmac(input.serverSeed, message)
  }

  /** The text is the SHA-256 of bytes from which the reward map can be read. */
  ghost predicate DigestsMap(crypto: Crypto, bands: seq<RewardBand>, mappingDigest: string) {
    exists bytes :: ReadMapping(bytes) == Some(bands) && mappingDigest == Hex(crypto.sha256(bytes))
  }

  ghost predicate Shown(crypto: Crypto, input: SpinInput, d: Derivation) {
    exists digest: Digest :: AnswersTo(crypto, input, d.mappingDigest, d.attempt, digest)
      && d.rawDigestHex == Hex(digest) && d.rawValue == Number(digest)
  }

  ghost predicate Rejected(crypto: Crypto, input: SpinInput, mappingDigest: string, attempt: nat, limit: nat) {
    exists digest: Digest :: AnswersTo(crypto, input, mappingDigest, attempt, digest) && Number(digest) >= limit
  }

  /** The reward is the band whose interval of weights holds the value. */
  predicate InBand(bands: seq<RewardBand>, value: int, reward: RewardBand) {
    exists i :: 0 <= i < |bands| && reward == bands[i]
      && WeightBefore(bands, i) <= value < WeightBefore(bands, i) + bands[i].weight
  }

  /** The evidence follows from the inputs: the digest of the map, the first digest below the limit, its remainder, and
      the band that holds the remainder. */
  ghost predicate DrawnFrom(crypto: Crypto, input: SpinInput, d: Derivation) {
    && TotalWeight(input.bands) > 0
    && var total := TotalWeight(input.bands);
    && DigestsMap(crypto, input.bands, d.mappingDigest)
    && Shown(crypto, input, d) && d.rawValue < Limit(total)
    && (forall k: nat | k < d.attempt :: Rejected(crypto, input, d.mappingDigest, k, Limit(total)))
    && d.normalizedValue == d.rawValue % total && InBand(input.bands, d.normalizedValue, d.reward)
  }

  lemma AttemptAnswers(crypto: Crypto, input: SpinInput, attempt: nat)
    requires ValidBands(input.bands) && ValidInput(input)
    ensures AnswersTo(crypto, input, MappingDigest(crypto, input.bands), attempt, Raw(crypto, input, attempt))
  {
    MappingDigestIsDigest(crypto, input.bands);
    hide MappingDigest, ReadMessage, DerivationMessage, ValidBands, ValidClientSeed, IsDigestText, UuidText, Ascii;
    MessageRead(MessageInput(input.clientSeed, input.nonce, input.configVersionId, input.sessionId,
                             MappingDigest(crypto, input.bands), attempt));
    ClientSeedEncodes(input.clientSeed);
    assert Says(input, MappingDigest(crypto, input.bands), attempt, Message(crypto, input, attempt));
  }

  lemma ClientSeedEncodes(seed: seq<CodePoint>)
    requires ValidClientSeed(seed)
    ensures Utf8(seed).Some?
  {
  }

  lemma MapDigested(crypto: Crypto, bands: seq<RewardBand>)
    requires ValidBands(bands)
    ensures DigestsMap(crypto, bands, MappingDigest(crypto, bands))
  {
    hide ReadMapping, DailySpinMappingBytes, ValidBands, Hex;
    MappingRoundTrip(bands);
  }

  lemma SelectedIsInBand(bands: seq<RewardBand>, value: int)
    requires ValidBands(bands) && 0 <= value < TotalWeight(bands)
    ensures InBand(bands, value, bands[Selected(bands, value)])
  {
    hide ValidBands;
    assert Owns(bands, Selected(bands, value), value);
  }

  /** What a valid input yields is drawn from it. */
  lemma DerivedIsDrawn(crypto: Crypto, input: SpinInput)
    requires ValidInput(input) && Ends(crypto, input)
    ensures DrawnFrom(crypto, input, Derived(crypto, input))
  {
    assert ValidBands(input.bands);
    hide ValidBands, ValidClientSeed, MappingDigest, Number, Hex, Raw, Ends, TotalWeight, AnswersTo, DigestsMap,
         ValidInput, Limit, InBand;
    TotalIsPositive(input.bands);
    MapDigested(crypto, input.bands);
    var d := Derived(crypto, input);
    AttemptAnswers(crypto, input, d.attempt);
    SelectedIsInBand(input.bands, d.normalizedValue);
    forall k: nat | k < d.attempt ensures Rejected(crypto, input, d.mappingDigest, k, Limit(TotalWeight(input.bands))) {
      AttemptAnswers(crypto, input, k);
      assert !Accepted(crypto, input, k);
    }
  }

  /** A seed of 32 bytes, the one supported protocol, a nonce of 64 bits, a valid map, and a client seed of up to 64
      characters that print. */
  ghost predicate Drawable(input: SpinInput) {
    && |input.serverSeed| == 32 && 0 <= input.nonce <= 18_446_744_073_709_551_615 && ValidBands(input.bands)
    && input.versions == Versions("daily_spin", "rng-game-platform-pvf-v1", "hmac-sha256", "daily-spin-weighted-reward-v1")
    && exists bytes :: Utf8(input.clientSeed) == Some(bytes) && 1 <= |bytes| <= 64
         && forall k | 0 <= k < |bytes| :: 33 <= bytes[k] <= 126
  }

  lemma ValidIsDrawable(input: SpinInput)
    ensures ValidInput(input) <==> Drawable(input)
  {
    hide ValidBands, Utf8;
  }

  /** `derive_daily_spin`: the loop returns the first accepted attempt. `enough` only bounds the search. */
  method DeriveDailySpin(crypto: Crypto, input: SpinInput, ghost enough: nat) returns (r: DrawResult<Derivation>)
    requires ValidInput(input) ==> Accepted(crypto, input, enough)
    ensures match InputError(input)
            case Some(error) => r == Err(error)
            case None => Ends(crypto, input) && r == Ok(Derived(crypto, input))
    ensures r.Ok? ==> DrawnFrom(crypto, input, r.value)
    ensures r.Ok? <==> Drawable(input)
  {
    ValidIsDrawable(input);
    hide ValidBands, ValidClientSeed, Accepted, Number, Hex, Limit, Raw, MappingDigest, DrawnFrom, Drawable;
    if |input.serverSeed| != 32 { return Err(InvalidSeed); }
    if input.versions != SUPPORTED { return Err(UnsupportedVersion); }
    if !(0 <= input.nonce <= MAX_NONCE) { return Err(InvalidNonce); }
    var valid := ValidateRewardBands(input.bands);
    if !valid { return Err(InvalidRewardMapping); }
    if !ValidClientSeed(input.clientSeed) { return Err(InvalidSeed); }
    r := Search(crypto, input, enough);
    DerivedIsDrawn(crypto, input);
  }

  method Search(crypto: Crypto, input: SpinInput, ghost enough: nat) returns (r: DrawResult<Derivation>)
    requires ValidInput(input) && Accepted(crypto, input, enough)
    ensures Ends(crypto, input) && r == Ok(Derived(crypto, input))
  {
    TotalIsPositive(input.bands);
    assert ValidBands(input.bands);
    hide ValidBands, ValidClientSeed, Number, Hex, Limit, Raw, MappingDigest, ValidInput;
    var total := TotalWeight(input.bands);
    var limit := Limit(total);
    var attempt := 0;
    while true
      invariant attempt <= enough
      invariant forall earlier: nat | earlier < attempt :: !Accepted(crypto, input, earlier)
      decreases enough - attempt
    {
      var digest := Raw(crypto, input, attempt);
      var raw := Number(digest);
      if raw < limit {
        FirstIsUnique(crypto, input, attempt);
        var reward := SelectDailySpinReward(input.bands, raw % total);
        return Ok(Derivation(MappingDigest(crypto, input.bands), Hex(digest), raw, raw % total, attempt, reward.value));
      }
      assert !Accepted(crypto, input, attempt);
      attempt := attempt + 1;
    }
  }

  // ---------- verification ----------

  datatype DailySpinProof = DailySpinProof(
    versions: Versions, serverSeedCommitment: string, serverSeedHex: string, clientSeed: seq<CodePoint>, nonce: int,
    configVersionId: Uuid, sessionId: Uuid, bands: seq<RewardBand>, mappingDigest: string, rawDigestHex: string,
    normalizedValue: int, attempt: int, rewardKey: seq<CodePoint>, rewardValue: int)

  /** `Crash` is the TypeError of `hmac.compare_digest` on text that is not ASCII. */
  datatype Verdict = Verdict(verified: bool, code: string) | Crash

  function ErrorCode(error: FairnessError): string {
    match error
    case UnsupportedVersion => "unsupported_fairness_version"
    case InvalidSeed => "invalid_fairness_seed"
    case InvalidNonce => "invalid_fairness_nonce"
    case InvalidRewardMapping => "invalid_reward_mapping"
    case InvalidInput => "invalid_fairness_input"
  }

  function Commitment(crypto: Crypto, seed: seq<Byte>): string {
    Hex(crypto.sha256(seed))
  }

  function SeedOf(proof: DailySpinProof): seq<Byte> {
    match FromHex(proof.serverSeedHex) case Some(seed) => seed case None => []
  }

  function InputOf(proof: DailySpinProof): SpinInput {
    SpinInput(proof.versions, SeedOf(proof), proof.clientSeed, proof.nonce, proof.configVersionId, proof.sessionId, proof.bands)
  }

  /** The comparison of the recomputed evidence with the published evidence. */
  function Compared(d: Derivation, proof: DailySpinProof): Verdict {
    if !IsAscii(proof.mappingDigest) then Crash
    else if d.mappingDigest != proof.mappingDigest then Verdict(false, "mapping_digest_mismatch")
    else if !IsAscii(proof.rawDigestHex) then Crash
    else if d.rawDigestHex != proof.rawDigestHex then Verdict(false, "raw_digest_mismatch")
    else if d.normalizedValue != proof.normalizedValue then Verdict(false, "normalized_value_mismatch")
    else if d.attempt != proof.attempt then Verdict(false, "attempt_mismatch")
    else if d.reward.key != proof.rewardKey || d.reward.value != proof.rewardValue then Verdict(false, "reward_mismatch")
    else Verdict(true, "verified")
  }

  /** The proof that `derive_daily_spin` gives rise to. */
  ghost function HonestProof(crypto: Crypto, input: SpinInput): DailySpinProof
    requires ValidInput(input) && Ends(crypto, input)
  {
    var d := Derived(crypto, input);
    DailySpinProof(input.versions, Commitment(crypto, input.serverSeed), Hex(input.serverSeed), input.clientSeed, input.nonce,
                   input.configVersionId, input.sessionId, input.bands, d.mappingDigest, d.rawDigestHex, d.normalizedValue,
                   d.attempt, d.reward.key, d.reward.value)
  }

  /** The evidence in a proof is the evidence of its own inputs. */
  ghost predicate Genuine(crypto: Crypto, proof: DailySpinProof) {
    exists input :: ValidInput(input) && Ends(crypto, input) && proof == HonestProof(crypto, input)
  }

  lemma SeedReadsBack(input: SpinInput, crypto: Crypto)
    requires ValidInput(input) && Ends(crypto, input)
    ensures var proof := HonestProof(crypto, input); IsDigestText(proof.serverSeedHex) && InputOf(proof) == input
  {
    HexRoundTrip(input.serverSeed);
    HexIsDigits(input.serverSeed);
  }

  /** The proof brings text that is not ASCII to one of the three comparisons of digests: with supported versions and a
      well-formed seed to the first, with a fitting commitment and valid input to the second, with the digest of its
      own map to the third. */
  predicate Crashes(crypto: Crypto, proof: DailySpinProof) {
    && proof.versions == SUPPORTED && IsDigestText(proof.serverSeedHex)
    && (!IsAscii(proof.serverSeedCommitment)
        || (Commitment(crypto, SeedOf(proof)) == proof.serverSeedCommitment && ValidInput(InputOf(proof))
            && (!IsAscii(proof.mappingDigest)
                || (MappingDigest(crypto, proof.bands) == proof.mappingDigest && !IsAscii(proof.rawDigestHex)))))
  }

  lemma CrashesIff(crypto: Crypto, proof: DailySpinProof)
    requires ValidInput(InputOf(proof)) ==> Ends(crypto, InputOf(proof))
    ensures Expected(crypto, proof).Crash? <==> Crashes(crypto, proof)
  {
    hide Ends, ValidBands, ValidClientSeed, Hex, IsDigestText, IsAscii, FromHex, MappingDigest, Commitment, Raw,
         Number;
  }

  /** The published fields are the evidence of a draw from the committed seed under the one supported protocol. */
  ghost predicate Backs(crypto: Crypto, proof: DailySpinProof, seed: seq<Byte>, d: Derivation) {
    && |seed| == 32
    && proof.versions == Versions("daily_spin", "rng-game-platform-pvf-v1", "hmac-sha256", "daily-spin-weighted-reward-v1")
    && proof.serverSeedCommitment == Hex(crypto.sha256(seed)) && proof.serverSeedHex == Hex(seed)
    && DrawnFrom(crypto, SpinInput(proof.versions, seed, proof.clientSeed, proof.nonce, proof.configVersionId, proof.sessionId,
                                   proof.bands), d)
    && proof.mappingDigest == d.mappingDigest && proof.rawDigestHex == d.rawDigestHex
    && proof.normalizedValue == d.normalizedValue && proof.attempt == d.attempt
    && proof.rewardKey == d.reward.key && proof.rewardValue == d.reward.value
  }

  lemma GenuineIsBacked(crypto: Crypto, proof: DailySpinProof)
    requires Genuine(crypto, proof)
    ensures exists seed, d :: Backs(crypto, proof, seed, d)
  {
    hide Ends, Derived, Hex, ValidBands, ValidClientSeed, DrawnFrom;
    var input :| ValidInput(input) && Ends(crypto, input) && proof == HonestProof(crypto, input);
    DerivedIsDrawn(crypto, input);
    assert Backs(crypto, proof, input.serverSeed, Derived(crypto, input));
  }

  /** `verify_daily_spin_proof` accepts exactly the genuine proofs: those whose every evidence field is what
      their inputs yield. */
  method VerifyDailySpinProof(crypto: Crypto, proof: DailySpinProof, ghost enough: nat) returns (verdict: Verdict)
    requires ValidInput(InputOf(proof)) ==> Accepted(crypto, InputOf(proof), enough)
    ensures verdict == Verdict(true, "verified") <==> Genuine(crypto, proof)
    ensures verdict == Verdict(true, "verified") ==> exists seed, d :: Backs(crypto, proof, seed, d)
    ensures verdict.Crash? <==> Crashes(crypto, proof)
    ensures verdict == Expected(crypto, proof)
  {
    assert ValidInput(InputOf(proof)) ==> Ends(crypto, InputOf(proof));
    hide ValidInput, Accepted, Derived, IsDigestText, Hex, FromHex, Ends;
    GenuineIff(crypto, proof);
    CrashesIff(crypto, proof);
    if Genuine(crypto, proof) { GenuineIsBacked(crypto, proof); }
    hide Crashes, Backs, Genuine;
    if proof.versions != SUPPORTED { return Verdict(false, ErrorCode(UnsupportedVersion)); }
    if !IsDigestText(proof.serverSeedHex) { return Verdict(false, ErrorCode(InvalidInput)); }
    if !IsAscii(proof.serverSeedCommitment) { return Crash; }
    if Commitment(crypto, SeedOf(proof)) != proof.serverSeedCommitment { return Verdict(false, "commitment_mismatch"); }
    var r := DeriveDailySpin(crypto, InputOf(proof), enough);
    match r {
      case Err(error) => verdict := Verdict(false, ErrorCode(error));
      case Ok(d) => verdict := Compared(d, proof);
    }
  }

  /** The verdict, check by check. */
  ghost function Expected(crypto: Crypto, proof: DailySpinProof): Verdict
    requires ValidInput(InputOf(proof)) ==> Ends(crypto, InputOf(proof))
  {
    if proof.versions != SUPPORTED then Verdict(false, ErrorCode(UnsupportedVersion))
    else if !IsDigestText(proof.serverSeedHex) then Verdict(false, ErrorCode(InvalidInput))
    else if !IsAscii(proof.serverSeedCommitment) then Crash
    else if Commitment(crypto, SeedOf(proof)) != proof.serverSeedCommitment then Verdict(false, "commitment_mismatch")
    else
      match InputError(InputOf(proof))
      case Some(error) => Verdict(false, ErrorCode(error))
      case None => Compared(Derived(crypto, InputOf(proof)), proof)
  }

  /** The code of each check that comes before the draw is given when that check is the first to fail. */
  lemma EarlyCodes(crypto: Crypto, proof: DailySpinProof)
    requires ValidInput(InputOf(proof)) ==> Ends(crypto, InputOf(proof))
    ensures var verdict := Expected(crypto, proof);
      var known := proof.versions == Versions("daily_spin", "rng-game-platform-pvf-v1", "hmac-sha256", "daily-spin-weighted-reward-v1");
      var hexed := known && IsDigestText(proof.serverSeedHex);
      var committed := hexed && IsAscii(proof.serverSeedCommitment)
                       && Hex(crypto.sha256(SeedOf(proof))) == proof.serverSeedCommitment;
      var counted := committed && 0 <= proof.nonce < 0x1_0000_0000_0000_0000;
      && (!known ==> verdict == Verdict(false, "unsupported_fairness_version"))
      && (known && !hexed ==> verdict == Verdict(false, "invalid_fairness_input"))
      && (hexed && IsAscii(proof.serverSeedCommitment) && !committed ==> verdict == Verdict(false, "commitment_mismatch"))
      && (committed && !counted ==> verdict == Verdict(false, "invalid_fairness_nonce"))
      && (counted && !ValidBands(proof.bands) ==> verdict == Verdict(false, "invalid_reward_mapping"))
      && (counted && ValidBands(proof.bands) && !ValidClientSeed(proof.clientSeed)
          ==> verdict == Verdict(false, "invalid_fairness_seed"))
  {
    if IsDigestText(proof.serverSeedHex) { DigitsAreHex(proof.serverSeedHex); }
    hide Ends, Derived, Hex, FromHex, ValidBands, ValidClientSeed, IsDigestText, IsAscii;
  }

  /** The code of each comparison of evidence is given when that comparison is the first to fail. */
  lemma EvidenceCodes(crypto: Crypto, proof: DailySpinProof)
    requires ValidInput(InputOf(proof)) ==> Ends(crypto, InputOf(proof))
    ensures var verdict := Expected(crypto, proof);
      proof.versions == SUPPORTED && IsDigestText(proof.serverSeedHex) && IsAscii(proof.serverSeedCommitment)
      && Commitment(crypto, SeedOf(proof)) == proof.serverSeedCommitment && ValidInput(InputOf(proof)) ==>
        var d := Derived(crypto, InputOf(proof));
        var mapped := IsAscii(proof.mappingDigest) && d.mappingDigest == proof.mappingDigest;
        var digested := mapped && IsAscii(proof.rawDigestHex) && d.rawDigestHex == proof.rawDigestHex;
        var normalized := digested && d.normalizedValue == proof.normalizedValue;
        var attempted := normalized && d.attempt == proof.attempt;
        && (IsAscii(proof.mappingDigest) && !mapped ==> verdict == Verdict(false, "mapping_digest_mismatch"))
        && (mapped && IsAscii(proof.rawDigestHex) && !digested ==> verdict == Verdict(false, "raw_digest_mismatch"))
        && (digested && !normalized ==> verdict == Verdict(false, "normalized_value_mismatch"))
        && (normalized && !attempted ==> verdict == Verdict(false, "attempt_mismatch"))
        && (attempted && !(d.reward.key == proof.rewardKey && d.reward.value == proof.rewardValue)
            ==> verdict == Verdict(false, "reward_mismatch"))
  {
    hide Ends, Derived, Hex, FromHex, InputError, IsDigestText, IsAscii, InputOf, SeedOf;
  }

  lemma HexIsAscii(bytes: seq<Byte>)
    ensures IsAscii(Hex(bytes))
  {
    HexIsDigits(bytes);
    DigitTextIsAscii(Hex(bytes));
  }

  lemma GenuineIff(crypto: Crypto, proof: DailySpinProof)
    requires ValidInput(InputOf(proof)) ==> Ends(crypto, InputOf(proof))
    ensures Expected(crypto, proof) == Verdict(true, "verified") <==> Genuine(crypto, proof)
  {
    hide Ends, ValidBands, ValidClientSeed, Derived;
    if Genuine(crypto, proof) {
      var input :| ValidInput(input) && Ends(crypto, input) && proof == HonestProof(crypto, input);
      SeedReadsBack(input, crypto);
      HonestIsVerified(crypto, input, proof);
    }
    if Expected(crypto, proof) == Verdict(true, "verified") {
      DigitsAreHex(proof.serverSeedHex);
      assert proof == HonestProof(crypto, InputOf(proof));
    }
  }

  lemma HonestIsVerified(crypto: Crypto, input: SpinInput, proof: DailySpinProof)
    requires ValidInput(input) && Ends(crypto, input) && proof == HonestProof(crypto, input)
    requires InputOf(proof) == input && IsDigestText(proof.serverSeedHex)
    ensures Expected(crypto, proof) == Verdict(true, "verified")
  {
    hide Ends, ValidBands, ValidClientSeed, Hex, IsDigestText, IsAscii, InputOf;
    HexIsAscii(crypto.sha256(input.serverSeed));
    HexIsAscii(crypto.sha256(DailySpinMappingBytes(input.bands)));
    HexIsAscii(Raw(crypto, input, First(crypto, input)));
    assert SeedOf(proof) == input.serverSeed by { assert InputOf(proof) == input; SameSeed(proof); }
  }

  lemma SameSeed(proof: DailySpinProof)
    ensures InputOf(proof).serverSeed == SeedOf(proof)
  {
  }

  // ---------- the commitment fixes the reward ----------

  /** Commitment and public inputs of a proof: everything but the seed and what follows from it. */
  predicate SamePublicInputs(p: DailySpinProof, q: DailySpinProof) {
    && p.serverSeedCommitment == q.serverSeedCommitment
    && p.clientSeed == q.clientSeed && p.nonce == q.nonce && p.bands == q.bands
    && p.configVersionId == q.configVersionId && p.sessionId == q.sessionId
  }

  /** Two accepted proofs with the same commitment and public inputs agree on everything, unless their two seeds are
      a collision of SHA-256: once the commitment is published, the server can no longer choose the reward. */
  lemma CommitmentFixesReward(crypto: Crypto, p: DailySpinProof, q: DailySpinProof)
    requires SamePublicInputs(p, q)
    ensures Genuine(crypto, p) && Genuine(crypto, q) ==>
      || p == q
      || (SeedOf(p) != SeedOf(q) && crypto.sha256(SeedOf(p)) == crypto.sha256(SeedOf(q)))
  {
    hide Ends, ValidBands, ValidClientSeed, Derived, Hex, FromHex;
    if Genuine(crypto, p) && Genuine(crypto, q) {
      var a :| ValidInput(a) && Ends(crypto, a) && p == HonestProof(crypto, a);
      var b :| ValidInput(b) && Ends(crypto, b) && q == HonestProof(crypto, b);
      SeedReadsBack(a, crypto);
      SeedReadsBack(b, crypto);
      HexInjective(crypto.sha256(a.serverSeed), crypto.sha256(b.serverSeed));
      if a.serverSeed == b.serverSeed { assert a == b; }
    }
  }

  // ---------- the outcome provider of the other games ----------

  const COUNTERS: nat := 0x1_0000_0000  // four bytes

  datatype Uniform = Value(value: nat, digestHex: string) | NotPositive | CounterOverflow

  function CounterBytes(counter: nat): seq<Byte> {
    match ToBytes(counter, 4) case Some(bytes) => bytes case None => []
  }

  function UniformRaw(crypto: Crypto, key: seq<Byte>, base: seq<Byte>, counter: nat): Digest {
    crypto.hmac(key, base + CounterBytes(counter))
  }

  /** `HmacOutcomeProvider.uniform`: the first accepted counter, if four bytes are enough to reach it. */
  method UniformBelow(crypto: Crypto, key: seq<Byte>, base: seq<Byte>, upper: int) returns (r: Uniform)
    ensures r.NotPositive? <==> upper <= 0
    ensures r.CounterOverflow? <==>
      upper > 0 && forall c: nat | c < COUNTERS :: Number(UniformRaw(crypto, key, base, c)) >= Limit(upper)
    ensures r.Value? ==> upper > 0 && exists counter: nat ::
        && counter < COUNTERS
        && Number(UniformRaw(crypto, key, base, counter)) < Limit(upper)
        && (forall c: nat | c < counter :: Number(UniformRaw(crypto, key, base, c)) >= Limit(upper))
        && r == Value(Number(UniformRaw(crypto, key, base, counter)) % upper, Hex(UniformRaw(crypto, key, base, counter)))
  {
    hide Limit, Number, Hex;
    if upper <= 0 { return NotPositive; }
    var limit := Limit(upper);
    var counter := 0;
    while true
      invariant counter <= COUNTERS
      invariant forall c: nat | c < counter :: Number(UniformRaw(crypto, key, base, c)) >= limit
      decreases COUNTERS - counter
    {
      FourBytes(counter);
      var suffix := ToBytes(counter, 4);
      if suffix.None? { return CounterOverflow; }
      var digest := crypto.hmac(key, base + suffix.value);
      assert digest == UniformRaw(crypto, key, base, counter);
      var raw := Number(digest);
      if raw < limit { return Value(raw % upper, Hex(digest)); }
      counter := counter + 1;
    }
  }

  lemma FourBytes(counter: nat)
    ensures ToBytes(counter, 4).Some? <==> counter < COUNTERS
  {
    ToBytesReads(counter, 4);
    assert Pow256(1) == 256 * Pow256(0) == 256;
    Pow256Add(1, 1);
    Pow256Add(2, 2);
  }

  /** Each result below the bound is given by equally many accepted digests. */
  lemma UniformIsFair(upper: nat, value: nat)
    requires value < upper <= SPACE
    ensures var giving := DigestsOf(Landing(upper, SPACE / upper, value, value + 1));
      && (forall d: Digest :: d in giving <==> Number(d) < Limit(upper) && Number(d) % upper == value)
      && |giving| == SPACE / upper
  {
    var landing := Landing(upper, SPACE / upper, value, value + 1);
    LimitIsMultiple(upper);
    forall d: Digest ensures d in DigestsOf(landing) <==> Number(d) < Limit(upper) && Number(d) % upper == value {
      DigestsRead(landing, d);
    }
    assert forall n | n in landing :: n < SPACE;
    hide Landing, DigestsOf, Limit;
    DigestsCounted(landing);
    LandingCounted(upper, SPACE / upper, value, value + 1, 1);
  }
}
