/** One game session with everything that hangs on it: the fairness proof and its seed, the event chain, the
    outcome, the reward and the leaderboard score. Each service call is one atomic step; a call that raises
    leaves no trace, except that an expiry it found is committed first. */
module Lifecycle {
  import opened Text
  import opened Bytes
  import opened Rng
  import opened Encoding
  import opened SpinProof
  import opened FairnessEvents
  import opened GameRules
  import Board

  datatype Status = Active | Completed | Expired | Cancelled

  datatype Session = Session(
    id: Uuid, playerId: Uuid, gameKey: string, configVersionId: Uuid, status: Status,
    createdAt: int, expiresAt: int, endedAt: Option<int>, challenge: Option<seq<int>>)

  datatype Outcome = Outcome(id: Uuid, result: Result)

  datatype RewardStatus = Issued | Claimed | Lapsed

  datatype Reward = Reward(outcomeId: Uuid, status: RewardStatus, value: int, claimedAt: Option<int>)

  datatype FinalScore = FinalScore(id: Uuid, outcomeId: Uuid, periodStart: int, completedAt: int, value: int)

  /** The rows that belong to one session. Events are kept by sequence number. */
  datatype Slice = Slice(
    session: Session, proof: Option<Proof>, custody: Option<seq<Byte>>, events: seq<Event>,
    outcome: Option<Outcome>, reward: Option<Reward>, score: Option<FinalScore>)

  /** What a call depends on besides the rows: the hash functions, the fingerprint of an evaluation request and
      the payload of the configuration that the session is pinned to. */
  datatype Ctx = Ctx(crypto: Crypto, hash: Hash, fingerprint: (Uuid, seq<CodePoint>) -> string, config: Config)

  type ServerSeed = d: seq<Byte> | |d| == 32 witness seq(32, i => 0)

  /** `InvalidMapping`, `Integrity` and `Fault` are exceptions that no service catches. */
  datatype ServiceError =
    | NotFound | Forbidden | SessionExpired | InvalidTransition | InvalidPlay | FairnessRequired | IdempotencyConflict
    | RewardUnavailable | InactivePlayer | GameIneligible | PeriodClosed | InvalidMapping | Integrity | Fault

  datatype Reply = Done | Replayed | Failed(error: ServiceError)

  datatype Step = Step(slice: Slice, reply: Reply)

  function Refuse(s: Slice, error: ServiceError): Step {
    Step(s, Failed(error))
  }

  // ---------- ending a session ----------

  function ExpireIfDue(session: Session, now: int): Session {
    if session.status != Active || session.expiresAt > now then session
    else session.(status := Expired, endedAt := Some(now))
  }

  function Latest(events: seq<Event>): Option<Event> {
    if events == [] then None else Some(events[|events| - 1])
  }

  /** `None` is InvalidTransitionError: a committed proof without an event, or a status that ends nothing. */
  function EndCommitted(ctx: Ctx, s: Slice, status: ProofStatus, now: int): Option<Slice> {
    if s.proof.None? || s.proof.value.status != Committed then Some(s)
    else if status != ExpiredProof && status != CancelledProof then None
    else
      match Latest(s.events)
      case None => None
      case Some(latest) =>
        var proof := s.proof.value.(status := status);
        var event := NewEvent(ctx.hash, proof.id, latest.sequence + 1, status, Some(latest.hash),
                              TerminalPayload(FactsOf(proof), now), now);
        Some(s.(proof := Some(proof), custody := None, events := s.events + [event]))
  }

  /** `finalize_expired_session`: `None` is InvalidTransitionError; otherwise the rows and whether they changed. */
  function Finalize(ctx: Ctx, s: Slice, now: int): Option<(Slice, bool)> {
    var session := ExpireIfDue(s.session, now);
    var s1 := s.(session := session);
    if session == s.session && session.status != Expired then Some((s, false))
    else
      match EndCommitted(ctx, s1, ExpiredProof, now)
      case None => None
      case Some(s2) => Some((s2, session != s.session || s2.proof != s1.proof))
  }

  // ---------- the calls ----------

  /** The proof a commit inserts. */
  function NewProof(ctx: Ctx, session: Session, seed: seq<Byte>, proofId: Uuid): Proof
    requires ctx.config.DailySpinConfig? && ValidBands(ctx.config.rewards)
  {
    Proof(proofId, session.id, session.playerId, session.configVersionId, Committed,
          Versions(session.gameKey, PROTOCOL_VERSION, ALGORITHM, MAPPING_VERSION), Commitment(ctx.crypto, seed), 0,
          MappingDigest(ctx.crypto, ctx.config.rewards), None)
  }

  function CommitFairness(ctx: Ctx, s: Slice, owner: Uuid, now: int, seed: ServerSeed, proofId: Uuid): Step {
    if s.session.playerId != owner then Refuse(s, Forbidden)
    else
      match Finalize(ctx, s, now)
      case None => Refuse(s, InvalidTransition)
      case Some((expired, true)) => Step(expired, Failed(SessionExpired))
      case Some((_, false)) =>
        if s.session.status != Active then Refuse(s, InvalidTransition)
        else if s.proof.Some? then Step(s, Replayed)
        else if !FairnessGame(s.session.gameKey) || !ctx.config.DailySpinConfig? then Refuse(s, InvalidPlay)
        else if !ValidBands(ctx.config.rewards) then Refuse(s, InvalidMapping)
        else
          var proof := NewProof(ctx, s.session, seed, proofId);
          var event := NewEvent(ctx.hash, proofId, 0, Committed, None, CommitPayload(FactsOf(proof)), now);
          Step(s.(proof := Some(proof), custody := Some(seed), events := [event]), Done)
  }

  function InputFor(ctx: Ctx, proof: Proof, seed: seq<Byte>, clientSeed: seq<CodePoint>): SpinInput
    requires ctx.config.DailySpinConfig?
  {
    SpinInput(proof.versions, seed, clientSeed, proof.nonce, proof.configVersionId, proof.sessionId, ctx.config.rewards)
  }

  /** Every valid draw ends. */
  ghost predicate DrawsEnd(ctx: Ctx) {
    forall input :: ValidInput(input) ==> Ends(ctx.crypto, input)
  }

  function Revelation(ctx: Ctx, proof: Proof, seed: seq<Byte>, clientSeed: seq<CodePoint>, d: Derivation,
                      outcomeId: Uuid, now: int): Proof {
    proof.(status := Revealed,
           disclosure := Some(Disclosure(outcomeId, clientSeed, ctx.fingerprint(proof.id, clientSeed), d.rawDigestHex,
                                         d.normalizedValue, d.attempt, d.reward.key, d.reward.value, now, Hex(seed), now)))
  }

  /** Everything an evaluation writes. The event's sequence number is the constant 1. */
  function Reveals(ctx: Ctx, s: Slice, proof: Proof, latest: Event, seed: seq<Byte>, clientSeed: seq<CodePoint>,
                   d: Derivation, outcomeId: Uuid, now: int): Slice
  {
    var revealed := Revelation(ctx, proof, seed, clientSeed, d, outcomeId, now);
    var event := NewEvent(ctx.hash, proof.id, 1, Revealed, Some(latest.hash),
                          RevealedPayload(FactsOf(revealed), revealed.disclosure), now);
    s.(session := s.session.(status := Completed, endedAt := Some(now)),
       proof := Some(revealed),
       events := s.events + [event],
       outcome := Some(Outcome(outcomeId, SpinOutcome(d))),
       reward := Some(Reward(outcomeId, Issued, d.reward.value, None)))
  }

  ghost function EvaluateFairness(ctx: Ctx, s: Slice, owner: Uuid, now: int, proofId: Uuid,
                                  clientSeed: seq<CodePoint>, outcomeId: Uuid): Step
    requires DrawsEnd(ctx)
  {
    if s.proof.None? || s.proof.value.id != proofId then Refuse(s, NotFound)
    else if s.proof.value.playerId != owner then Refuse(s, Forbidden)
    else if s.proof.value.status == Revealed then Replay(ctx, s, s.proof.value, clientSeed)
    else
      match Finalize(ctx, s, now)
      case None => Refuse(s, InvalidTransition)
      case Some((expired, true)) => Step(expired, Failed(SessionExpired))
      case Some((_, false)) => Draw(ctx, s, s.proof.value, now, clientSeed, outcomeId)
  }

  /** A repeated evaluation. */
  function Replay(ctx: Ctx, s: Slice, proof: Proof, clientSeed: seq<CodePoint>): Step {
    match proof.disclosure
    case None => Refuse(s, InvalidTransition)
    case Some(disclosure) =>
      if disclosure.fingerprint != ctx.fingerprint(proof.id, clientSeed) then Refuse(s, IdempotencyConflict)
      else if s.outcome.None? || s.reward.None? then Refuse(s, NotFound)
      else Step(s, Replayed)
  }

  /** The sequence number 1 is taken. */
  predicate HasSecond(events: seq<Event>) {
    exists i :: 0 <= i < |events| && events[i].sequence == 1
  }

  ghost function Draw(ctx: Ctx, s: Slice, proof: Proof, now: int, clientSeed: seq<CodePoint>, outcomeId: Uuid): Step
    requires DrawsEnd(ctx)
  {
    if proof.status != Committed || s.session.status != Active then Refuse(s, InvalidTransition)
    else if s.custody.None? then Refuse(s, NotFound)
    else if !FairnessGame(s.session.gameKey) || !ctx.config.DailySpinConfig? then Refuse(s, InvalidPlay)
    else
      var input := InputFor(ctx, proof, s.custody.value, clientSeed);
      if !ValidInput(input) then Refuse(s, InvalidPlay)
      else if s.outcome.Some? || s.reward.Some? then Refuse(s, Integrity)
      else
        match Latest(s.events)
        case None => Refuse(s, InvalidTransition)
        case Some(latest) =>
          if HasSecond(s.events) then Refuse(s, Integrity)
          else Step(Reveals(ctx, s, proof, latest, s.custody.value, clientSeed, Derived(ctx.crypto, input), outcomeId, now), Done)
  }

  function CancelSession(ctx: Ctx, s: Slice, owner: Uuid, now: int): Step {
    if s.session.playerId != owner then Refuse(s, Forbidden)
    else
      match Finalize(ctx, s, now)
      case None => Refuse(s, InvalidTransition)
      case Some((expired, true)) => Step(expired, Done)
      case Some((_, false)) =>
        if s.session.status != Active then Refuse(s, InvalidTransition)
        else
          match EndCommitted(ctx, s.(session := s.session.(status := Cancelled, endedAt := Some(now))), CancelledProof, now)
          case None => Refuse(s, InvalidTransition)
          case Some(s') => Step(s', Done)
  }

  function RetrieveSession(ctx: Ctx, s: Slice, owner: Uuid, now: int): Step {
    if s.session.playerId != owner then Refuse(s, Forbidden)
    else
      match Finalize(ctx, s, now)
      case None => Refuse(s, InvalidTransition)
      case Some((s', _)) => Step(s', Done)
  }

  /** Direct play of the session's game; `drawn` is what the outcome provider would give. */
  function DirectPlay(ctx: Ctx, session: Session, intent: Intent, drawn: Uniform, now: int): Evaluation {
    if session.gameKey == PREDICTION_CARD then CardPlay(ctx.config, intent, drawn)
    else SkillPlay(ctx.config, session.challenge, intent, session.createdAt, now)
  }

  function RetryPlay(s: Slice, intent: Intent): Step {
    if s.session.status != Completed || s.outcome.None? then Refuse(s, InvalidTransition)
    else if !KnownGame(s.session.gameKey) then Refuse(s, InvalidPlay)
    else if FairnessGame(s.session.gameKey) then Refuse(s, InvalidTransition)
    else
      match RetryMatches(s.session.gameKey, s.outcome.value.result, intent)
      case Some(true) => Step(s, Replayed)
      case Some(false) => Refuse(s, IdempotencyConflict)
      case None => Refuse(s, InvalidTransition)
  }

  function PlaySession(ctx: Ctx, s: Slice, owner: Uuid, now: int, intent: Intent, drawn: Uniform,
                       outcomeId: Uuid): Step {
    if s.session.playerId != owner then Refuse(s, Forbidden)
    else
      match Finalize(ctx, s, now)
      case None => Refuse(s, InvalidTransition)
      case Some((expired, true)) => Step(expired, Failed(SessionExpired))
      case Some((_, false)) =>
        if s.session.status != Active then RetryPlay(s, intent)
        else if !KnownGame(s.session.gameKey) then Refuse(s, InvalidPlay)
        else if FairnessGame(s.session.gameKey) then Refuse(s, FairnessRequired)
        else
          match DirectPlay(ctx, s.session, intent, drawn, now)
          case Invalid => Refuse(s, InvalidPlay)
          case Fault => Refuse(s, ServiceError.Fault)
          case Evaluated(result) =>
            if s.outcome.Some? || s.reward.Some? then Refuse(s, Integrity)
            else
              match RewardValue(s.session.gameKey, ctx.config, result)
              case None => Refuse(s, InvalidPlay)
              case Some(value) =>
                // the column is a 32-bit integer
                if value > MAX_REWARD_VALUE then Refuse(s, Integrity)
                else Step(Played(s, outcomeId, result, value, now), Done)
  }

  function Played(s: Slice, outcomeId: Uuid, result: Result, value: int, now: int): Slice {
    s.(session := s.session.(status := Completed, endedAt := Some(now)),
       outcome := Some(Outcome(outcomeId, result)),
       reward := Some(Reward(outcomeId, Issued, value, None)))
  }

  // ---------- weeks ----------

  const DAY_US: int := 86_400_000_000
  const WEEK_US: int := 604_800_000_000

  /** 1970-01-01 was a Thursday: the first Monday after it is four days later. */
  const MONDAY_US: int := 4 * DAY_US

  /** The start of the ISO week of a time in microseconds since 1970, as `leaderboard_period` computes it. */
  function PeriodStart(at: int): int {
    at - (at - MONDAY_US) % WEEK_US
  }

  predicate IsPeriodStart(start: int) {
    (start - MONDAY_US) % WEEK_US == 0
  }

  /** The period of a time is the one week, from Monday to Monday, that contains it. */
  lemma PeriodIsTheWeek(at: int, start: int)
    ensures IsPeriodStart(start) && start <= at < start + WEEK_US <==> start == PeriodStart(at)
  {
    var k := (at - MONDAY_US) / WEEK_US;
    assert PeriodStart(at) == MONDAY_US + k * WEEK_US;
    var j := (start - MONDAY_US) / WEEK_US;
  }

  function SubmitFinalScore(ctx: Ctx, s: Slice, owner: Uuid, now: int, playerActive: bool, scoreId: Uuid): Step {
    if s.session.playerId != owner then Refuse(s, Forbidden)
    else if s.score.Some? then Step(s, Replayed)
    else if !playerActive then Refuse(s, InactivePlayer)
    else if !KnownGame(s.session.gameKey) then Refuse(s, GameIneligible)
    else if s.session.status != Completed || s.session.endedAt.None? then Refuse(s, InvalidTransition)
    else if s.outcome.None? then Refuse(s, InvalidTransition)
    else
      match LeaderboardScore(s.session.gameKey, ctx.config, s.outcome.value.result)
      case None => Refuse(s, InvalidPlay)
      case Some(value) =>
        var ended := s.session.endedAt.value;
        if now >= PeriodStart(ended) + WEEK_US then Refuse(s, PeriodClosed)
        else if !Board.Storable(value) then Refuse(s, Integrity)
        else Step(s.(score := Some(FinalScore(scoreId, s.outcome.value.id, PeriodStart(ended), ended, value))), Done)
  }

  function ClaimSessionReward(s: Slice, owner: Uuid, now: int): Step {
    if s.session.playerId != owner then Refuse(s, Forbidden)
    else
      match s.reward
      case None => Refuse(s, RewardUnavailable)
      case Some(reward) =>
        match reward.status
        case Claimed => Step(s, Replayed)
        case Lapsed => Refuse(s, RewardUnavailable)
        case Issued => Step(s.(reward := Some(reward.(status := Claimed, claimedAt := Some(now)))), Done)
  }

  // ---------- runs ----------

  datatype Call =
    | Commit(owner: Uuid, now: int, seed: ServerSeed, proofId: Uuid)
    | Evaluate(owner: Uuid, now: int, proofId: Uuid, clientSeed: seq<CodePoint>, outcomeId: Uuid)
    | Cancel(owner: Uuid, now: int)
    | Retrieve(owner: Uuid, now: int)
    | Play(owner: Uuid, now: int, intent: Intent, drawn: Uniform, outcomeId: Uuid)
    | Submit(owner: Uuid, now: int, playerActive: bool, scoreId: Uuid)
    | Claim(owner: Uuid, now: int)

  ghost function Execute(ctx: Ctx, s: Slice, call: Call): Step
    requires DrawsEnd(ctx)
  {
    match call
    case Commit(owner, now, seed, proofId) => CommitFairness(ctx, s, owner, now, seed, proofId)
    case Evaluate(owner, now, proofId, clientSeed, outcomeId) => EvaluateFairness(ctx, s, owner, now, proofId, clientSeed, outcomeId)
    case Cancel(owner, now) => CancelSession(ctx, s, owner, now)
    case Retrieve(owner, now) => RetrieveSession(ctx, s, owner, now)
    case Play(owner, now, intent, drawn, outcomeId) => PlaySession(ctx, s, owner, now, intent, drawn, outcomeId)
    case Submit(owner, now, playerActive, scoreId) => SubmitFinalScore(ctx, s, owner, now, playerActive, scoreId)
    case Claim(owner, now) => ClaimSessionReward(s, owner, now)
  }

  ghost function After(ctx: Ctx, s: Slice, calls: seq<Call>): Slice
    requires DrawsEnd(ctx)
    decreases |calls|
  {
    if calls == [] then s else After(ctx, Execute(ctx, s, calls[0]).slice, calls[1..])
  }

  /** A session as `create_session` inserts it. */
  predicate Created(s: Slice) {
    && s.session.status == Active && s.session.endedAt.None?
    && s.proof.None? && s.custody.None? && s.events == [] && s.outcome.None? && s.reward.None? && s.score.None?
  }
}
