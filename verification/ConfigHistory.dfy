/** A session and the configuration row it is pinned to. Every call reads the payload that the row holds at that
    moment; a trigger decides which updates of the row go through. */
module ConfigHistory {
  import opened Text
  import opened Bytes
  import opened Rng
  import opened Encoding
  import opened SpinProof
  import opened FairnessEvents
  import opened GameRules
  import opened Lifecycle
  import opened LifecycleSafety

  datatype ConfigStatus = Draft | PublishedConfig | Retired

  datatype ConfigRow = ConfigRow(gameId: Uuid, version: int, status: ConfigStatus, payload: Config,
                                 publishedAt: Option<int>)

  /** `protect_published_config` on an update. Comparing the times of publication with NULL is neither true nor false, and the
      trigger raises only on what is false. */
  predicate UpdateAllowed(before: ConfigRow, after: ConfigRow) {
    before.status == PublishedConfig ==>
      && after.status == Retired && after.gameId == before.gameId && after.version == before.version
      && after.payload == before.payload
      && (after.publishedAt == before.publishedAt || after.publishedAt.None? || before.publishedAt.None?)
  }

  /** `committed` and `evaluated` record the reward map that the payload held at the commit and at the evaluation. */
  datatype World = World(row: ConfigRow, slice: Slice, committed: Option<seq<RewardBand>>,
                         evaluated: Option<seq<RewardBand>>)

  datatype Move = Service(call: Call) | Updates(row: ConfigRow)

  function BandsOf(config: Config): seq<RewardBand> {
    if config.DailySpinConfig? then config.rewards else []
  }

  function Pinned(ctx: Ctx, w: World): Ctx {
    ctx.(config := w.row.payload)
  }

  /** An update that the trigger refuses changes nothing. */
  ghost function Next(ctx: Ctx, w: World, move: Move): World
    requires DrawsEnd(ctx)
  {
    match move
    case Service(call) =>
      var done := Execute(Pinned(ctx, w), w.slice, call);
      var bands := Some(BandsOf(w.row.payload));
      w.(slice := done.slice,
         committed := if call.Commit? && done.reply == Done then bands else w.committed,
         evaluated := if call.Evaluate? && done.reply == Done then bands else w.evaluated)
    case Updates(row) => if UpdateAllowed(w.row, row) then w.(row := row) else w
  }

  ghost function AfterAll(ctx: Ctx, w: World, moves: seq<Move>): World
    requires DrawsEnd(ctx)
    decreases |moves|
  {
    if moves == [] then w else AfterAll(ctx, Next(ctx, w, moves[0]), moves[1..])
  }

  predicate Started(w: World) {
    Created(w.slice) && w.committed.None? && w.evaluated.None?
  }

  // ---------- the invariant ----------

  /** What the seed, the client's seed and a reward map are drawn from. */
  function InputUnder(p: Proof, seed: seq<Byte>, clientSeed: seq<CodePoint>, bands: seq<RewardBand>): SpinInput {
    SpinInput(p.versions, seed, clientSeed, p.nonce, p.configVersionId, p.sessionId, bands)
  }

  /** The disclosed evidence is what the committed seed yields under the map `bands`. */
  ghost predicate DrawnUnder(ctx: Ctx, p: Proof, seed: seq<Byte>, seal: Disclosure, bands: seq<RewardBand>) {
    var input := InputUnder(p, seed, seal.clientSeed, bands);
    && ValidInput(input) && Ends(ctx.crypto, input)
    && var d := Derived(ctx.crypto, input);
    && p.commitment == Commitment(ctx.crypto, seed) && seal.serverSeedHex == Hex(seed)
    && seal.rawDigestHex == d.rawDigestHex && seal.normalizedValue == d.normalizedValue && seal.attempt == d.attempt
    && seal.rewardKey == d.reward.key && seal.rewardValue == d.reward.value
  }

  ghost predicate CommittedUnder(ctx: Ctx, p: Proof, events: seq<Event>, bands: seq<RewardBand>) {
    && ValidBands(bands) && p.mappingDigest == MappingDigest(ctx.crypto, bands)
    && p.versions == SUPPORTED && p.nonce == 0 && ChainOf(ctx, p, events)
  }

  ghost predicate DisclosureInv(ctx: Ctx, w: World, p: Proof) {
    match p.status
    case Committed =>
      && p.disclosure.None? && w.evaluated.None? && w.slice.custody.Some? && |w.slice.custody.value| == 32
      && p.commitment == Commitment(ctx.crypto, w.slice.custody.value)
    case Revealed =>
      && p.disclosure.Some? && w.evaluated.Some? && w.slice.custody.Some?
      && DrawnUnder(ctx, p, w.slice.custody.value, p.disclosure.value, w.evaluated.value)
    case _ => p.disclosure.None? && w.evaluated.None?
  }

  ghost predicate HistoryInv(ctx: Ctx, w: World) {
    match w.slice.proof
    case None => w.slice.events == [] && w.slice.custody.None? && w.committed.None? && w.evaluated.None?
    case Some(p) =>
      w.committed.Some? && CommittedUnder(ctx, p, w.slice.events, w.committed.value) && DisclosureInv(ctx, w, p)
  }

  lemma PinnedDrawsEnd(ctx: Ctx, w: World)
    requires DrawsEnd(ctx)
    ensures DrawsEnd(Pinned(ctx, w))
  {
    hide Ends, ValidInput;
  }

  /** Steps that leave the proof, its seed and its events alone. */
  lemma QuietKeepsHistory(ctx: Ctx, w: World, slice: Slice)
    requires HistoryInv(ctx, w)
    requires slice.proof == w.slice.proof && slice.custody == w.slice.custody && slice.events == w.slice.events
    ensures HistoryInv(ctx, w.(slice := slice))
  {
    hide CommittedUnder, DrawnUnder, Commitment;
  }

  lemma EndingKeepsHistory(ctx: Ctx, w: World, session: Session, status: ProofStatus, now: int)
    requires HistoryInv(ctx, w) && (status == ExpiredProof || status == CancelledProof)
    ensures var ended := EndCommitted(ctx, w.slice.(session := session), status, now);
      ended.Some? && HistoryInv(ctx, w.(slice := ended.value))
  {
    hide MappingDigest, ValidBands, FactsOf, NewEvent, DrawnUnder, Commitment;
    if w.slice.proof.Some? && w.slice.proof.value.status == Committed {
      var p := w.slice.proof.value;
      var p' := p.(status := status);
      SameFacts(p, p');
      SecondEvent(ctx, p, p', w.slice.events, TerminalPayload(FactsOf(p'), now), now);
      hide ChainOf;
    }
  }

  lemma FinalizeKeepsHistory(ctx: Ctx, w: World, now: int)
    requires HistoryInv(ctx, w)
    ensures var r := Finalize(ctx, w.slice, now); r.Some? && HistoryInv(ctx, w.(slice := r.value.0))
    ensures var r := Finalize(ctx, w.slice, now); !r.value.1 ==> r.value.0 == w.slice
  {
    EndingKeepsHistory(ctx, w, ExpireIfDue(w.slice.session, now), ExpiredProof, now);
    hide HistoryInv, EndCommitted;
  }

  /** Ending a session reads nothing of the configuration. */
  lemma FinalizeIgnoresConfig(ctx: Ctx, w: World, now: int)
    ensures Finalize(Pinned(ctx, w), w.slice, now) == Finalize(ctx, w.slice, now)
  {
    hide NewEvent, FactsOf;
  }

  lemma CommitKeepsHistory(ctx: Ctx, w: World, owner: Uuid, now: int, seed: ServerSeed, proofId: Uuid)
    requires DrawsEnd(ctx) && HistoryInv(ctx, w)
    ensures HistoryInv(ctx, Next(ctx, w, Service(Commit(owner, now, seed, proofId))))
  {
    var pinned := Pinned(ctx, w);
    FinalizeIgnoresConfig(ctx, w, now);
    FinalizeKeepsHistory(ctx, w, now);
    var done := CommitFairness(pinned, w.slice, owner, now, seed, proofId);
    if done.reply == Done {
      var proof := NewProof(pinned, w.slice.session, seed, proofId);
      ChainGrows(ctx.hash, [], proofId, Committed, CommitPayload(FactsOf(proof)), now);
      assert [] + done.slice.events == done.slice.events;
      hide NewEvent, MappingDigest, Commitment, Finalize, DrawsEnd;
    } else {
      hide HistoryInv, NewProof, NewEvent, Finalize, DrawsEnd;
    }
  }

  lemma EvaluateKeepsHistory(ctx: Ctx, w: World, call: Call)
    requires DrawsEnd(ctx) && HistoryInv(ctx, w) && call.Evaluate?
    ensures HistoryInv(ctx, Next(ctx, w, Service(call)))
  {
    hide HistoryInv, Draw, DrawsEnd, Finalize, EndCommitted;
    PinnedDrawsEnd(ctx, w);
    FinalizeIgnoresConfig(ctx, w, call.now);
    FinalizeKeepsHistory(ctx, w, call.now);
    var done := EvaluateFairness(Pinned(ctx, w), w.slice, call.owner, call.now, call.proofId, call.clientSeed, call.outcomeId);
    assert Next(ctx, w, Service(call)) ==
           w.(slice := done.slice, evaluated := if done.reply == Done then Some(BandsOf(w.row.payload)) else w.evaluated);
    if w.slice.proof.Some? {
      DrawKeepsHistory(ctx, w, w.slice.proof.value, call.now, call.clientSeed, call.outcomeId);
    }
    hide Next;
    assert w.(slice := w.slice) == w;
  }

  lemma DrawKeepsHistory(ctx: Ctx, w: World, p: Proof, now: int, clientSeed: seq<CodePoint>, outcomeId: Uuid)
    requires DrawsEnd(ctx) && DrawsEnd(Pinned(ctx, w)) && HistoryInv(ctx, w) && w.slice.proof == Some(p)
    ensures var drawn := Draw(Pinned(ctx, w), w.slice, p, now, clientSeed, outcomeId);
      && (drawn.reply != Done ==> drawn.slice == w.slice)
      && (drawn.reply == Done ==> HistoryInv(ctx, w.(slice := drawn.slice, evaluated := Some(BandsOf(w.row.payload)))))
  {
    hide ValidInput, Ends, Derived, MappingDigest, NewEvent, Commitment, FactsOf, ValidBands, SpinOutcome;
    var pinned := Pinned(ctx, w);
    var drawn := Draw(pinned, w.slice, p, now, clientSeed, outcomeId);
    if drawn.reply == Done {
      var seed := w.slice.custody.value;
      var input := InputFor(pinned, p, seed, clientSeed);
      assert Ends(ctx.crypto, input);
      var p' := Revelation(pinned, p, seed, clientSeed, Derived(ctx.crypto, input), outcomeId, now);
      SameFacts(p, p');
      SecondEvent(ctx, p, p', w.slice.events, RevealedPayload(FactsOf(p'), p'.disclosure), now);
      hide ChainOf;
    }
  }

  lemma CancelKeepsHistory(ctx: Ctx, w: World, call: Call)
    requires DrawsEnd(ctx) && HistoryInv(ctx, w) && call.Cancel?
    ensures HistoryInv(ctx, Next(ctx, w, Service(call)))
  {
    FinalizeIgnoresConfig(ctx, w, call.now);
    FinalizeKeepsHistory(ctx, w, call.now);
    var session := w.slice.session.(status := Cancelled, endedAt := Some(call.now));
    EndingIgnoresConfig(ctx, w, w.slice.(session := session), CancelledProof, call.now);
    EndingKeepsHistory(ctx, w, session, CancelledProof, call.now);
    hide HistoryInv, DrawsEnd, Finalize, EndCommitted;
  }

  lemma EndingIgnoresConfig(ctx: Ctx, w: World, s: Slice, status: ProofStatus, now: int)
    ensures EndCommitted(Pinned(ctx, w), s, status, now) == EndCommitted(ctx, s, status, now)
  {
    hide NewEvent, FactsOf;
  }

  lemma RetrieveKeepsHistory(ctx: Ctx, w: World, call: Call)
    requires DrawsEnd(ctx) && HistoryInv(ctx, w) && call.Retrieve?
    ensures HistoryInv(ctx, Next(ctx, w, Service(call)))
  {
    FinalizeIgnoresConfig(ctx, w, call.now);
    FinalizeKeepsHistory(ctx, w, call.now);
    hide HistoryInv, DrawsEnd, Finalize;
  }

  lemma PlayKeepsHistory(ctx: Ctx, w: World, call: Call)
    requires DrawsEnd(ctx) && HistoryInv(ctx, w) && call.Play?
    ensures HistoryInv(ctx, Next(ctx, w, Service(call)))
  {
    FinalizeIgnoresConfig(ctx, w, call.now);
    FinalizeKeepsHistory(ctx, w, call.now);
    var slice := Next(ctx, w, Service(call)).slice;
    hide HistoryInv, DrawsEnd, Finalize, DirectPlay, RewardValue, RetryMatches;
    if slice != Finalize(ctx, w.slice, call.now).value.0 { QuietKeepsHistory(ctx, w, slice); }
  }

  lemma CallKeepsHistory(ctx: Ctx, w: World, call: Call)
    requires DrawsEnd(ctx) && HistoryInv(ctx, w)
    ensures HistoryInv(ctx, Next(ctx, w, Service(call)))
  {
    hide HistoryInv, DrawsEnd, Next;
    match call
    case Commit(owner, now, seed, proofId) => CommitKeepsHistory(ctx, w, owner, now, seed, proofId);
    case Evaluate(_, _, _, _, _) => EvaluateKeepsHistory(ctx, w, call);
    case Cancel(_, _) => CancelKeepsHistory(ctx, w, call);
    case Retrieve(_, _) => RetrieveKeepsHistory(ctx, w, call);
    case Play(_, _, _, _, _) => PlayKeepsHistory(ctx, w, call);
    case _ => ScoresKeepHistory(ctx, w, call);
  }

  lemma ScoresKeepHistory(ctx: Ctx, w: World, call: Call)
    requires DrawsEnd(ctx) && HistoryInv(ctx, w) && (call.Submit? || call.Claim?)
    ensures HistoryInv(ctx, Next(ctx, w, Service(call)))
  {
    hide HistoryInv, DrawsEnd, LeaderboardScore, PeriodStart;
    QuietKeepsHistory(ctx, w, Next(ctx, w, Service(call)).slice);
  }

  lemma MoveKeepsHistory(ctx: Ctx, w: World, move: Move)
    requires DrawsEnd(ctx) && HistoryInv(ctx, w)
    ensures HistoryInv(ctx, Next(ctx, w, move))
  {
    if move.Service? { CallKeepsHistory(ctx, w, move.call); }
    hide DrawsEnd, Execute, CommittedUnder, DrawnUnder, Commitment;
  }

  lemma {:induction false} RunKeepsHistory(ctx: Ctx, w: World, moves: seq<Move>)
    requires DrawsEnd(ctx) && HistoryInv(ctx, w)
    ensures HistoryInv(ctx, AfterAll(ctx, w, moves))
    decreases |moves|
  {
    hide DrawsEnd, HistoryInv, Next;
    if moves != [] {
      MoveKeepsHistory(ctx, w, moves[0]);
      RunKeepsHistory(ctx, Next(ctx, w, moves[0]), moves[1..]);
    }
  }

  lemma ReachedHistory(ctx: Ctx, start: World, moves: seq<Move>)
    requires DrawsEnd(ctx) && Started(start)
    ensures HistoryInv(ctx, AfterAll(ctx, start, moves))
  {
    RunKeepsHistory(ctx, start, moves);
  }

  // ---------- verification ----------

  predicate IsRevealed(w: World) {
    w.slice.proof.Some? && w.slice.proof.value.status == Revealed
  }

  /** `verify_fairness_proof`, under the payload that the row holds now, answers "verified". */
  ghost predicate VerifiesNow(ctx: Ctx, w: World)
    requires DrawsEnd(ctx)
  {
    && w.slice.proof.Some? && w.slice.proof.value.disclosure.Some? && w.row.payload.DailySpinConfig?
    && var published := Published(Pinned(ctx, w), w.slice.proof.value, w.slice.proof.value.disclosure.value);
    && (assert ValidInput(InputOf(published)) ==> Ends(ctx.crypto, InputOf(published));
        Expected(ctx.crypto, published) == Verdict(true, "verified"))
    && w.slice.events != [] && Chained(ctx.hash, w.slice.events) && AgreesWith(w.slice.proof.value, w.slice.events)
  }

  lemma ChainAgrees(ctx: Ctx, p: Proof, events: seq<Event>)
    requires ChainOf(ctx, p, events)
    ensures events != [] && Chained(ctx.hash, events) && AgreesWith(p, events)
  {
    hide Chained, FactsOf;
  }

  /** A revealed proof verifies under a map exactly if the map has the committed digest and yields the disclosed
      evidence. */
  ghost predicate Yields(ctx: Ctx, p: Proof, seed: seq<Byte>, seal: Disclosure, bands: seq<RewardBand>) {
    && ValidBands(bands) && MappingDigest(ctx.crypto, bands) == p.mappingDigest && DrawnUnder(ctx, p, seed, seal, bands)
  }

  lemma VerifiesIffYields(ctx: Ctx, w: World)
    requires DrawsEnd(ctx) && HistoryInv(ctx, w) && IsRevealed(w)
    ensures w.slice.custody.Some? && w.slice.proof.value.disclosure.Some?
    ensures VerifiesNow(ctx, w) <==>
      && w.row.payload.DailySpinConfig?
      && Yields(ctx, w.slice.proof.value, w.slice.custody.value, w.slice.proof.value.disclosure.value, w.row.payload.rewards)
  {
    hide DrawsEnd, ChainOf, Chained, AgreesWith, Expected, Yields, Published, DrawnUnder, ValidInput, Ends, InputOf,
         MappingDigest, ValidBands, Commitment;
    var p := w.slice.proof.value;
    ChainAgrees(ctx, p, w.slice.events);
    if w.row.payload.DailySpinConfig? {
      MappingDigestIsAscii(ctx.crypto, w.committed.value);
      ExpectedIffYields(ctx, w, p, w.slice.custody.value, p.disclosure.value, w.evaluated.value);
    }
  }

  lemma MappingDigestIsAscii(crypto: Crypto, bands: seq<RewardBand>)
    requires ValidBands(bands)
    ensures IsAscii(MappingDigest(crypto, bands))
  {
    HexIsAscii(crypto.sha256(DailySpinMappingBytes(bands)));
  }

  lemma ExpectedIffYields(ctx: Ctx, w: World, p: Proof, seed: seq<Byte>, seal: Disclosure, drawn: seq<RewardBand>)
    requires DrawsEnd(ctx) && w.row.payload.DailySpinConfig? && p.versions == SUPPORTED && DrawnUnder(ctx, p, seed, seal, drawn)
    requires IsAscii(p.mappingDigest)
    ensures var published := Published(Pinned(ctx, w), p, seal);
      && (ValidInput(InputOf(published)) ==> Ends(ctx.crypto, InputOf(published)))
      && (Expected(ctx.crypto, published) == Verdict(true, "verified") <==> Yields(ctx, p, seed, seal, w.row.payload.rewards))
  {
    hide ValidBands, ValidClientSeed, Ends, Derived, MappingDigest, Hex, FromHex, IsAscii, Commitment, Expected;
    var published := Published(Pinned(ctx, w), p, seal);
    HexRoundTrip(seed);
    assert InputOf(published) == InputUnder(p, seed, seal.clientSeed, w.row.payload.rewards);
    assert ValidInput(InputOf(published)) ==> Ends(ctx.crypto, InputOf(published));
    hide DrawsEnd;
    EvidenceDecides(ctx.crypto, published, InputUnder(p, seed, seal.clientSeed, drawn));
    hide InputOf;
  }

  lemma EvidenceDecides(crypto: Crypto, published: DailySpinProof, drawn: SpinInput)
    requires ValidInput(drawn) && Ends(crypto, drawn) && InputOf(published) == drawn.(bands := published.bands)
    requires ValidInput(InputOf(published)) ==> Ends(crypto, InputOf(published))
    requires published.serverSeedHex == Hex(drawn.serverSeed)
    requires published.serverSeedCommitment == Commitment(crypto, drawn.serverSeed)
    requires published.rawDigestHex == Derived(crypto, drawn).rawDigestHex && IsAscii(published.mappingDigest)
    ensures Expected(crypto, published) == Verdict(true, "verified") <==>
      && ValidBands(published.bands) && MappingDigest(crypto, published.bands) == published.mappingDigest
      && var d := Derived(crypto, InputOf(published));
      && published.rawDigestHex == d.rawDigestHex && published.normalizedValue == d.normalizedValue
      && published.attempt == d.attempt && published.rewardKey == d.reward.key && published.rewardValue == d.reward.value
  {
    HexIsDigits(drawn.serverSeed);
    HexIsAscii(crypto.sha256(drawn.serverSeed));
    HexIsAscii(Raw(crypto, drawn, First(crypto, drawn)));
    SameSeed(published);
    DerivedDigest(crypto, drawn);
    hide ValidBands, ValidClientSeed, Ends, MappingDigest, Hex, FromHex, IsAscii, IsDigestText, InputOf;
    if ValidBands(published.bands) { DerivedDigest(crypto, InputOf(published)); }
    hide Derived;
  }

  lemma DerivedDigest(crypto: Crypto, input: SpinInput)
    requires ValidInput(input) && Ends(crypto, input)
    ensures ValidBands(input.bands) && Derived(crypto, input).mappingDigest == MappingDigest(crypto, input.bands)
    ensures Derived(crypto, input).rawDigestHex == Hex(Raw(crypto, input, First(crypto, input)))
  {
    hide ValidBands, ValidClientSeed, Ends, Hex, MappingDigest;
  }

  // ---------- what decides whether a proof verifies ----------

  /** Two maps whose encodings are a collision of SHA-256. */
  predicate MapClash(crypto: Crypto, a: seq<RewardBand>, b: seq<RewardBand>) {
    && ValidBands(a) && ValidBands(b)
    && DailySpinMappingBytes(a) != DailySpinMappingBytes(b)
    && crypto.sha256(DailySpinMappingBytes(a)) == crypto.sha256(DailySpinMappingBytes(b))
  }

  /** Two messages that collide under HMAC-SHA-256 with the committed seed as the key. */
  ghost predicate DrawClash(crypto: Crypto, a: SpinInput, b: SpinInput) {
    && ValidInput(a) && ValidInput(b) && a.serverSeed == b.serverSeed
    && exists n: nat :: Message(crypto, a, n) != Message(crypto, b, n) && Raw(crypto, a, n) == Raw(crypto, b, n)
  }

  lemma DigestDecides(crypto: Crypto, a: seq<RewardBand>, b: seq<RewardBand>)
    requires ValidBands(a) && ValidBands(b) && MappingDigest(crypto, a) == MappingDigest(crypto, b)
    ensures a == b || MapClash(crypto, a, b)
  {
    hide ValidBands, DailySpinMappingBytes, Hex;
    HexInjective(crypto.sha256(DailySpinMappingBytes(a)), crypto.sha256(DailySpinMappingBytes(b)));
    MappingInjective(a, b);
  }

  lemma GenuineDigest(crypto: Crypto, proof: DailySpinProof)
    requires Genuine(crypto, proof)
    ensures ValidBands(proof.bands) && proof.mappingDigest == MappingDigest(crypto, proof.bands)
  {
    hide Ends, ValidBands, Derived, Hex, ValidClientSeed;
    var input :| ValidInput(input) && Ends(crypto, input) && proof == HonestProof(crypto, input);
    DerivedDigest(crypto, input);
    hide MappingDigest, ValidInput;
  }

  /** A published proof that verifies under its own map verifies under another one exactly if that is the same map, or
      the encodings of the two are a collision of SHA-256. */
  lemma ProofNeedsItsBands(crypto: Crypto, proof: DailySpinProof, bands: seq<RewardBand>)
    requires Genuine(crypto, proof)
    ensures (Genuine(crypto, proof.(bands := bands)) <==> bands == proof.bands) || MapClash(crypto, bands, proof.bands)
  {
    hide Genuine, ValidBands, MapClash;
    if bands == proof.bands { assert proof.(bands := bands) == proof; }
    if Genuine(crypto, proof.(bands := bands)) {
      GenuineDigest(crypto, proof);
      GenuineDigest(crypto, proof.(bands := bands));
      DigestDecides(crypto, bands, proof.bands);
    }
  }

  lemma MessageDecides(crypto: Crypto, a: SpinInput, b: SpinInput, n: nat)
    requires ValidBands(a.bands) && ValidBands(b.bands) && ValidInput(a) && ValidInput(b)
    requires Message(crypto, a, n) == Message(crypto, b, n)
    ensures MappingDigest(crypto, a.bands) == MappingDigest(crypto, b.bands)
  {
    hide DerivationMessage, MappingDigest, ValidBands;
    MappingDigestIsDigest(crypto, a.bands);
    MappingDigestIsDigest(crypto, b.bands);
    MessageInjective(MessageInput(a.clientSeed, a.nonce, a.configVersionId, a.sessionId, MappingDigest(crypto, a.bands), n),
                     MessageInput(b.clientSeed, b.nonce, b.configVersionId, b.sessionId, MappingDigest(crypto, b.bands), n));
  }

  /** Under one seed, two maps give the same raw digest at the same attempt only if they are the same map. */
  lemma RawDecides(crypto: Crypto, a: SpinInput, b: SpinInput)
    requires ValidInput(a) && ValidInput(b) && Ends(crypto, a) && Ends(crypto, b) && a.serverSeed == b.serverSeed
    requires Derived(crypto, a).rawDigestHex == Derived(crypto, b).rawDigestHex
    requires Derived(crypto, a).attempt == Derived(crypto, b).attempt
    ensures a.bands == b.bands || MapClash(crypto, a.bands, b.bands) || DrawClash(crypto, a, b)
  {
    DerivedDigest(crypto, a);
    DerivedDigest(crypto, b);
    var n := First(crypto, a);
    hide ValidInput, Ends, MappingDigest, Hex, Message, MapClash, ValidBands;
    hide First;
    HexInjective(Raw(crypto, a, n), Raw(crypto, b, n));
    if Message(crypto, a, n) == Message(crypto, b, n) {
      MessageDecides(crypto, a, b, n);
      DigestDecides(crypto, a.bands, b.bands);
    }
  }

  /** The payload holds the map that it held at the commit and at the evaluation. */
  predicate Unaltered(w: World) {
    && w.row.payload.DailySpinConfig?
    && w.committed == Some(w.row.payload.rewards) && w.evaluated == Some(w.row.payload.rewards)
  }

  /** Some two of the three maps are told apart only by a collision of a hash function. */
  ghost predicate Clashes(ctx: Ctx, w: World)
    requires w.slice.proof.Some? && w.slice.proof.value.disclosure.Some? && w.slice.custody.Some?
    requires w.committed.Some? && w.evaluated.Some?
  {
    var p, seed := w.slice.proof.value, w.slice.custody.value;
    var clientSeed := p.disclosure.value.clientSeed;
    var now := BandsOf(w.row.payload);
    || MapClash(ctx.crypto, now, w.committed.value)
    || MapClash(ctx.crypto, now, w.evaluated.value)
    || DrawClash(ctx.crypto, InputUnder(p, seed, clientSeed, now), InputUnder(p, seed, clientSeed, w.evaluated.value))
  }

  /** At every point of every run of calls and updates, a revealed proof verifies exactly if the payload holds the
      map that it held at the commit and at the evaluation, up to a collision of SHA-256 or HMAC-SHA-256. */
  lemma VerifiesUnlessAltered(ctx: Ctx, start: World, moves: seq<Move>)
    requires DrawsEnd(ctx) && Started(start)
    ensures var w := AfterAll(ctx, start, moves);
      IsRevealed(w) ==>
        && w.committed.Some? && w.evaluated.Some? && w.slice.custody.Some? && w.slice.proof.value.disclosure.Some?
        && (Unaltered(w) ==> VerifiesNow(ctx, w))
        && (VerifiesNow(ctx, w) ==> Unaltered(w) || Clashes(ctx, w))
  {
    hide DrawsEnd, HistoryInv, AfterAll, VerifiesNow, Clashes;
    ReachedHistory(ctx, start, moves);
    var w := AfterAll(ctx, start, moves);
    if IsRevealed(w) { AlteredOrVerified(ctx, w); }
  }

  lemma AlteredOrVerified(ctx: Ctx, w: World)
    requires DrawsEnd(ctx) && HistoryInv(ctx, w) && IsRevealed(w)
    ensures w.committed.Some? && w.evaluated.Some? && w.slice.custody.Some? && w.slice.proof.value.disclosure.Some?
    ensures Unaltered(w) ==> VerifiesNow(ctx, w)
    ensures VerifiesNow(ctx, w) ==> Unaltered(w) || Clashes(ctx, w)
  {
    hide DrawsEnd, VerifiesNow, ChainOf, ValidInput, Ends, Derived, MappingDigest, ValidBands, Commitment, MapClash,
         DrawClash;
    VerifiesIffYields(ctx, w);
    var p, seed := w.slice.proof.value, w.slice.custody.value;
    var seal := p.disclosure.value;
    if VerifiesNow(ctx, w) {
      DigestDecides(ctx.crypto, w.row.payload.rewards, w.committed.value);
      RawDecides(ctx.crypto, InputUnder(p, seed, seal.clientSeed, w.row.payload.rewards),
                 InputUnder(p, seed, seal.clientSeed, w.evaluated.value));
    }
  }

  /** The check that an evaluation could make beforehand: it reveals a proof that verifies exactly if the map in the
      payload has the committed digest. */
  lemma DigestGuardsEvaluation(ctx: Ctx, start: World, moves: seq<Move>, call: Call)
    requires DrawsEnd(ctx) && Started(start) && call.Evaluate?
    ensures var w := AfterAll(ctx, start, moves);
      DrawsEnd(Pinned(ctx, w)) && (Execute(Pinned(ctx, w), w.slice, call).reply == Done ==>
        && w.slice.proof.Some? && ValidBands(BandsOf(w.row.payload))
        && IsRevealed(Next(ctx, w, Service(call)))
        && (VerifiesNow(ctx, Next(ctx, w, Service(call)))
            <==> MappingDigest(ctx.crypto, BandsOf(w.row.payload)) == w.slice.proof.value.mappingDigest))
  {
    hide DrawsEnd, HistoryInv, AfterAll, VerifiesNow, Execute, Next, MappingDigest, ValidBands;
    var w := AfterAll(ctx, start, moves);
    PinnedDrawsEnd(ctx, w);
    ReachedHistory(ctx, start, moves);
    if Execute(Pinned(ctx, w), w.slice, call).reply == Done { EvaluationVerifiesIff(ctx, w, call); }
  }

  lemma EvaluationVerifiesIff(ctx: Ctx, w: World, call: Call)
    requires DrawsEnd(ctx) && DrawsEnd(Pinned(ctx, w)) && HistoryInv(ctx, w) && call.Evaluate?
    requires Execute(Pinned(ctx, w), w.slice, call).reply == Done
    ensures w.slice.proof.Some? && ValidBands(BandsOf(w.row.payload)) && IsRevealed(Next(ctx, w, Service(call)))
    ensures VerifiesNow(ctx, Next(ctx, w, Service(call)))
       <==> MappingDigest(ctx.crypto, BandsOf(w.row.payload)) == w.slice.proof.value.mappingDigest
  {
    var w' := Next(ctx, w, Service(call));
    DoneReveals(ctx, w, call);
    CallKeepsHistory(ctx, w, call);
    VerifiesIffYields(ctx, w');
    hide DrawsEnd, VerifiesNow, Next, Execute, ChainOf, Ends, Derived, MappingDigest, ValidBands, Commitment,
         ValidClientSeed;
  }

  lemma DoneReveals(ctx: Ctx, w: World, call: Call)
    requires DrawsEnd(ctx) && DrawsEnd(Pinned(ctx, w)) && call.Evaluate?
    requires Execute(Pinned(ctx, w), w.slice, call).reply == Done
    ensures var w' := Next(ctx, w, Service(call));
      && w.slice.proof.Some? && IsRevealed(w') && w'.row == w.row && w.row.payload.DailySpinConfig?
      && w'.evaluated == Some(w.row.payload.rewards)
      && w'.slice.proof.value.mappingDigest == w.slice.proof.value.mappingDigest
  {
    hide DrawsEnd, ValidInput, Derived, NewEvent, SpinOutcome, Finalize;
  }

  // ---------- runs that leave retired rows alone ----------

  /** Only published rows are updated. */
  ghost predicate LeavesRetired(ctx: Ctx, w: World, moves: seq<Move>)
    requires DrawsEnd(ctx)
    decreases |moves|
  {
    moves == [] || ((moves[0].Updates? ==> w.row.status == PublishedConfig) && LeavesRetired(ctx, Next(ctx, w, moves[0]), moves[1..]))
  }

  predicate OneMap(w: World) {
    && (w.committed.Some? ==> w.committed.value == BandsOf(w.row.payload))
    && (w.evaluated.Some? ==> w.evaluated.value == BandsOf(w.row.payload))
  }

  lemma {:induction false} PublishedPayloadStays(ctx: Ctx, w: World, moves: seq<Move>)
    requires DrawsEnd(ctx) && LeavesRetired(ctx, w, moves) && OneMap(w)
    ensures AfterAll(ctx, w, moves).row.payload == w.row.payload && OneMap(AfterAll(ctx, w, moves))
    decreases |moves|
  {
    hide DrawsEnd, Execute;
    if moves != [] { PublishedPayloadStays(ctx, Next(ctx, w, moves[0]), moves[1..]); }
  }

  /** All that an update can do to a published row is to retire it. The row, which the CHECK gives a time of publication, can
      lose that time with it; nothing else changes. */
  lemma PublishedOnlyRetires(ctx: Ctx, w: World, row: ConfigRow)
    requires DrawsEnd(ctx) && w.row.status == PublishedConfig && w.row.publishedAt.Some?
    ensures var retired := w.row.(status := Retired);
      Next(ctx, w, Updates(row)).row == if row == retired || row == retired.(publishedAt := None) then row else w.row
    ensures Next(ctx, w, Updates(row)).slice == w.slice
  {
    hide DrawsEnd;
  }

  /** The trigger is enough as long as no update meets a retired row or a draft: the payload is then that of the start,
      and every revealed proof verifies at every later point. */
  lemma PublishedRowsKeepProofs(ctx: Ctx, start: World, moves: seq<Move>)
    requires DrawsEnd(ctx) && Started(start) && LeavesRetired(ctx, start, moves)
    ensures var w := AfterAll(ctx, start, moves);
      w.row.payload == start.row.payload && (IsRevealed(w) ==> VerifiesNow(ctx, w))
  {
    hide DrawsEnd, HistoryInv, AfterAll, VerifiesNow, LeavesRetired;
    PublishedPayloadStays(ctx, start, moves);
    ReachedHistory(ctx, start, moves);
    var w := AfterAll(ctx, start, moves);
    if IsRevealed(w) {
      AlteredOrVerified(ctx, w);
      CommittedIsSpin(ctx, w);
    }
  }

  lemma CommittedIsSpin(ctx: Ctx, w: World)
    requires HistoryInv(ctx, w) && IsRevealed(w) && OneMap(w)
    ensures Unaltered(w)
  {
    hide ChainOf, MappingDigest, DrawnUnder;
  }

  // ---------- the failing case ----------

  /** The row is retired and then rewritten between a commit and its evaluation. */
  function Rewriting(w: World, now: int, seed: ServerSeed, clientSeed: seq<CodePoint>, id: Uuid,
                     payload: Config): seq<Move> {
    var owner, retired := w.slice.session.playerId, w.row.(status := Retired);
    [Service(Commit(owner, now, seed, id)), Updates(retired), Updates(retired.(payload := payload)),
     Service(Evaluate(owner, now, id, clientSeed, id))]
  }

  /** The trigger lets a retired payload be rewritten: the draw then follows the new map, and its proof never verified. */
  lemma RewriteBreaksProof(ctx: Ctx, start: World, now: int, seed: ServerSeed, clientSeed: seq<CodePoint>, id: Uuid,
                           payload: Config)
    requires DrawsEnd(ctx) && Started(start) && start.row.status == PublishedConfig
    requires CanCommit(Pinned(ctx, start), start.slice, now) && ValidClientSeed(clientSeed)
    requires payload.DailySpinConfig? && ValidBands(payload.rewards)
    requires MappingDigest(ctx.crypto, payload.rewards) != MappingDigest(ctx.crypto, BandsOf(start.row.payload))
    ensures var w := AfterAll(ctx, start, Rewriting(start, now, seed, clientSeed, id, payload));
      IsRevealed(w) && !VerifiesNow(ctx, w)
  {
    hide DrawsEnd, MappingDigest, ValidBands, ValidClientSeed, Execute, VerifiesNow, HistoryInv;
    var moves := Rewriting(start, now, seed, clientSeed, id, payload);
    var committed := Next(ctx, start, moves[0]);
    CommitsHere(ctx, start, now, seed, id);
    var retired := Next(ctx, committed, moves[1]);
    var rewritten := Next(ctx, retired, moves[2]);
    assert rewritten == committed.(row := start.row.(status := Retired, payload := payload));
    MoveKeepsHistory(ctx, committed, moves[1]);
    MoveKeepsHistory(ctx, retired, moves[2]);
    EvaluatesHere(ctx, rewritten, now, clientSeed, id);
    PinnedDrawsEnd(ctx, rewritten);
    EvaluationVerifiesIff(ctx, rewritten, moves[3].call);
    hide Next;
    FourMoves(ctx, start, moves);
  }

  lemma FourMoves(ctx: Ctx, w: World, moves: seq<Move>)
    requires DrawsEnd(ctx) && |moves| == 4
    ensures AfterAll(ctx, w, moves)
         == Next(ctx, Next(ctx, Next(ctx, Next(ctx, w, moves[0]), moves[1]), moves[2]), moves[3])
  {
    hide DrawsEnd, Next;
    assert moves == [moves[0], moves[1], moves[2], moves[3]];
    var w3 := Next(ctx, Next(ctx, Next(ctx, w, moves[0]), moves[1]), moves[2]);
    assert AfterAll(ctx, w3, [moves[3]]) == AfterAll(ctx, Next(ctx, w3, moves[3]), []);
    assert moves[1..][1..][1..] == [moves[3]];
    assert AfterAll(ctx, w, moves) == AfterAll(ctx, Next(ctx, Next(ctx, w, moves[0]), moves[1]), moves[1..][1..]);
  }

  lemma CommitsHere(ctx: Ctx, w: World, now: int, seed: ServerSeed, id: Uuid)
    requires DrawsEnd(ctx) && Started(w) && CanCommit(Pinned(ctx, w), w.slice, now)
    ensures var w' := Next(ctx, w, Service(Commit(w.slice.session.playerId, now, seed, id)));
      && HistoryInv(ctx, w') && w'.row == w.row && w'.slice.session == w.slice.session
      && w'.slice.outcome.None? && w'.slice.reward.None?
      && w'.slice.proof.Some? && w'.slice.proof.value.id == id && w'.slice.proof.value.status == Committed
      && w'.slice.proof.value.playerId == w.slice.session.playerId
      && w'.slice.proof.value.mappingDigest == MappingDigest(ctx.crypto, BandsOf(w.row.payload))
  {
    CallKeepsHistory(ctx, w, Commit(w.slice.session.playerId, now, seed, id));
    hide HistoryInv, DrawsEnd, NewEvent, MappingDigest, ValidBands, Commitment;
  }

  lemma EvaluatesHere(ctx: Ctx, w: World, now: int, clientSeed: seq<CodePoint>, id: Uuid)
    requires DrawsEnd(ctx) && HistoryInv(ctx, w) && w.slice.session.status == Active && !Due(w.slice, now)
    requires w.slice.session.gameKey == DAILY_SPIN && w.row.payload.DailySpinConfig? && ValidBands(w.row.payload.rewards)
    requires w.slice.proof.Some? && w.slice.proof.value.id == id && w.slice.proof.value.status == Committed
    requires w.slice.proof.value.playerId == w.slice.session.playerId
    requires w.slice.outcome.None? && w.slice.reward.None? && ValidClientSeed(clientSeed)
    ensures DrawsEnd(Pinned(ctx, w))
    ensures Execute(Pinned(ctx, w), w.slice, Evaluate(w.slice.session.playerId, now, id, clientSeed, id)).reply == Done
  {
    PinnedDrawsEnd(ctx, w);
    OnlyTheFirstEvent(ctx, w.slice.proof.value, w.slice.events);
    DrawsHere(ctx, w, w.slice.proof.value, now, clientSeed, id);
    hide HistoryInv, DrawsEnd, Draw, ValidBands, ValidClientSeed, EndCommitted;
  }

  lemma DrawsHere(ctx: Ctx, w: World, p: Proof, now: int, clientSeed: seq<CodePoint>, id: Uuid)
    requires DrawsEnd(Pinned(ctx, w)) && w.slice.session.status == Active && w.slice.session.gameKey == DAILY_SPIN
    requires w.row.payload.DailySpinConfig? && ValidBands(w.row.payload.rewards) && ValidClientSeed(clientSeed)
    requires p.status == Committed && p.versions == SUPPORTED && p.nonce == 0
    requires w.slice.custody.Some? && |w.slice.custody.value| == 32 && w.slice.outcome.None? && w.slice.reward.None?
    requires Latest(w.slice.events).Some? && !HasSecond(w.slice.events)
    ensures Draw(Pinned(ctx, w), w.slice, p, now, clientSeed, id).reply == Done
  {
    hide ValidBands, ValidClientSeed, NewEvent, Derived, SpinOutcome, HasSecond, Latest, Reveals, DrawsEnd;
  }
}
