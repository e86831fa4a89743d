/** What each call leaves in the tables, column by column, and who may make it. */
module LifecycleRows {
  import opened Text
  import opened Bytes
  import opened Rng
  import opened Encoding
  import opened SpinProof
  import opened FairnessEvents
  import opened GameRules
  import opened Lifecycle
  import opened LifecycleSafety
  import Board

  predicate Running(s: Slice, now: int) {
    s.session.status == Active && s.session.expiresAt > now
  }

  lemma RunningIsLeftAlone(ctx: Ctx, s: Slice, now: int)
    requires Running(s, now)
    ensures Finalize(ctx, s, now) == Some((s, false))
  {
    hide EndCommitted;
  }

  // ---------- commit ----------

  /** The proof of a running session, bound to it and to the seed and the map that it commits to. */
  ghost predicate CommitsTo(ctx: Ctx, session: Session, seed: seq<Byte>, proofId: Uuid, p: Proof) {
    && p.id == proofId && p.sessionId == session.id && p.playerId == session.playerId
    && p.configVersionId == session.configVersionId && p.status == Committed && p.nonce == 0 && p.disclosure.None?
    && p.versions == Versions("daily_spin", "rng-game-platform-pvf-v1", "hmac-sha256", "daily-spin-weighted-reward-v1")
    && p.commitment == Hex(ctx.crypto.sha256(seed))
    && ctx.config.DailySpinConfig? && DigestsMap(ctx.crypto, ctx.config.rewards, p.mappingDigest)
  }

  /** A commit that does its work is the owner's, on a running daily spin without a proof. It inserts the proof, keeps the
      seed and opens the event chain; nothing else changes. */
  lemma CommittedRows(ctx: Ctx, s: Slice, owner: Uuid, now: int, seed: ServerSeed, proofId: Uuid)
    requires CommitFairness(ctx, s, owner, now, seed, proofId).reply == Done
    ensures owner == s.session.playerId && Running(s, now) && s.session.gameKey == "daily_spin" && s.proof.None?
    ensures var s' := CommitFairness(ctx, s, owner, now, seed, proofId).slice;
      && s'.proof.Some? && s'.custody == Some(seed) && |s'.events| == 1
      && s' == s.(proof := s'.proof, custody := s'.custody, events := s'.events)
      && CommitsTo(ctx, s.session, seed, proofId, s'.proof.value)
      && s'.events[0].payload.CommitPayload? && Repeats(s'.events[0].payload.facts, s'.proof.value)
      && Records(ctx.hash, s'.events[0], proofId, 0, "committed", Committed, None, s'.events[0].payload, now)
  {
    if Running(s, now) { RunningIsLeftAlone(ctx, s, now); }
    MapDigested(ctx.crypto, ctx.config.rewards);
    hide MappingDigest, DigestsMap, Hex, ValidBands, EndCommitted;
  }

  // ---------- evaluate ----------

  /** The revealed columns of a draw. */
  predicate Seals(ctx: Ctx, seal: Disclosure, d: Derivation, p: Proof, seed: seq<Byte>, clientSeed: seq<CodePoint>,
                  outcomeId: Uuid, now: int)
  {
    && seal.outcomeId == outcomeId && seal.clientSeed == clientSeed && seal.fingerprint == ctx.fingerprint(p.id, clientSeed)
    && seal.rawDigestHex == d.rawDigestHex && seal.normalizedValue == d.normalizedValue && seal.attempt == d.attempt
    && seal.rewardKey == d.reward.key && seal.rewardValue == d.reward.value && seal.serverSeedHex == Hex(seed)
    && seal.evaluatedAt == now && seal.revealedAt == now
  }

  /** An evaluation that does its work is the owner's, of a committed proof on a running daily spin. It draws from the kept
      seed and the client's, completes the session, and stores evidence, outcome, reward and the second event. */
  lemma EvaluatedRows(ctx: Ctx, s: Slice, owner: Uuid, now: int, proofId: Uuid, clientSeed: seq<CodePoint>,
                      outcomeId: Uuid) returns (d: Derivation)
    requires DrawsEnd(ctx) && EvaluateFairness(ctx, s, owner, now, proofId, clientSeed, outcomeId).reply == Done
    ensures s.proof.Some? && s.proof.value.id == proofId && s.proof.value.playerId == owner
    ensures s.proof.value.status == Committed && Running(s, now) && s.session.gameKey == "daily_spin"
    ensures ctx.config.DailySpinConfig? && s.custody.Some?
    ensures s.events != [] && forall i | 0 <= i < |s.events| :: s.events[i].sequence != 1
    ensures var p := s.proof.value;
      DrawnFrom(ctx.crypto, SpinInput(p.versions, s.custody.value, clientSeed, p.nonce, p.configVersionId, p.sessionId,
                                      ctx.config.rewards), d)
    ensures var s' := EvaluateFairness(ctx, s, owner, now, proofId, clientSeed, outcomeId).slice;
      var last := |s.events|;
      && s'.session == s.session.(status := Completed, endedAt := Some(now))
      && s'.custody == s.custody && s'.score == s.score
      && s'.outcome == Some(Outcome(outcomeId, SpinResult(d.reward.key, d.normalizedValue, d.rawDigestHex)))
      && s'.reward == Some(Reward(outcomeId, Issued, d.reward.value, None))
      && s'.proof.Some? && s'.proof.value.disclosure.Some?
      && s'.proof.value == s.proof.value.(status := Revealed, disclosure := s'.proof.value.disclosure)
      && Seals(ctx, s'.proof.value.disclosure.value, d, s.proof.value, s.custody.value, clientSeed, outcomeId, now)
      && |s'.events| == last + 1 && s'.events[..last] == s.events
      && s'.events[last].payload.RevealedPayload? && Repeats(s'.events[last].payload.facts, s.proof.value)
      && s'.events[last].payload.disclosure == s'.proof.value.disclosure
      && Records(ctx.hash, s'.events[last], proofId, 1, "revealed", Revealed, Some(s.events[last - 1].hash),
                 s'.events[last].payload, now)
  {
    hide Ends, Derived, ValidInput, DrawnFrom, Hex, EndCommitted, DrawsEnd;
    var p := s.proof.value;
    if Running(s, now) { RunningIsLeftAlone(ctx, s, now); }
    var input := InputFor(ctx, p, s.custody.value, clientSeed);
    assert ValidInput(input) && Ends(ctx.crypto, input) by { DrawEnds(ctx, input); }
    d := Derived(ctx.crypto, input);
    DerivedIsDrawn(ctx.crypto, input);
  }

  lemma DrawEnds(ctx: Ctx, input: SpinInput)
    requires DrawsEnd(ctx) && ValidInput(input)
    ensures Ends(ctx.crypto, input)
  {
    hide Ends, ValidInput;
  }

  // ---------- cancel and expire ----------

  /** The session has ended at `now` with the status; a committed proof has ended with it, its seed is gone and an event of
      its own says so. Nothing else has changed. */
  predicate EndedAs(ctx: Ctx, s: Slice, s': Slice, status: Status, proofStatus: ProofStatus, eventType: string,
                    now: int) {
    && s'.session == s.session.(status := status, endedAt := Some(now))
    && s' == s.(session := s'.session, proof := s'.proof, custody := s'.custody, events := s'.events)
    && (if s.proof.Some? && s.proof.value.status == Committed
        then
          && s.events != [] && s'.proof == Some(s.proof.value.(status := proofStatus)) && s'.custody.None?
          && var last := |s.events|;
          && |s'.events| == last + 1 && s'.events[..last] == s.events
          && s'.events[last].payload.TerminalPayload? && s'.events[last].payload.terminalAt == now
          && Repeats(s'.events[last].payload.facts, s.proof.value)
          && Records(ctx.hash, s'.events[last], s.proof.value.id, s.events[last - 1].sequence + 1, eventType, proofStatus,
                     Some(s.events[last - 1].hash), s'.events[last].payload, now)
        else s'.proof == s.proof && s'.custody == s.custody && s'.events == s.events)
  }

  /** Finalising an elapsed session expires it with its proof. */
  lemma ExpiredRows(ctx: Ctx, s: Slice, now: int)
    requires s.session.status == Active && s.session.expiresAt <= now && Finalize(ctx, s, now).Some?
    ensures EndedAs(ctx, s, Finalize(ctx, s, now).value.0, Expired, ExpiredProof, "expired", now)
    ensures Finalize(ctx, s, now).value.1
  {
  }

  /** A cancellation that does its work ends a running session with its proof, or reports the expiry of an elapsed one. */
  lemma CancelledRows(ctx: Ctx, s: Slice, owner: Uuid, now: int)
    requires CancelSession(ctx, s, owner, now).reply == Done
    ensures owner == s.session.playerId
    ensures s.session.status == Active ==>
      var s' := CancelSession(ctx, s, owner, now).slice;
      if Running(s, now) then EndedAs(ctx, s, s', Cancelled, CancelledProof, "cancelled", now)
      else EndedAs(ctx, s, s', Expired, ExpiredProof, "expired", now)
  {
    if Running(s, now) { RunningIsLeftAlone(ctx, s, now); }
    if s.session.status == Active && !Running(s, now) && Finalize(ctx, s, now).Some? { ExpiredRows(ctx, s, now); }
  }

  // ---------- play ----------

  /** The session is complete with this outcome and this reward; nothing else has changed. */
  predicate CompletedWith(s: Slice, s': Slice, outcomeId: Uuid, result: Result, value: int, now: int) {
    && s'.session == s.session.(status := Completed, endedAt := Some(now))
    && s'.outcome == Some(Outcome(outcomeId, result)) && s'.reward == Some(Reward(outcomeId, Issued, value, None))
    && s' == s.(session := s'.session, outcome := s'.outcome, reward := s'.reward)
  }

  /** What a play needs of the rows. */
  predicate Playable(s: Slice, owner: Uuid, now: int) {
    owner == s.session.playerId && Running(s, now) && s.outcome.None? && s.reward.None?
  }

  /** The session has completed with the chosen and the drawn choice; the configured reward is earned if they are the same. */
  predicate PaysCard(config: Config, s: Slice, s': Slice, intent: Intent, drawn: Uniform, outcomeId: Uuid, now: int) {
    && config.PredictionCardConfig? && intent.choice.Some? && drawn.Value? && drawn.value < |config.choices|
    && var choice, authoritative := intent.choice.value, config.choices[drawn.value];
    && CompletedWith(s, s', outcomeId, CardResult(choice, authoritative, choice == authoritative, drawn.value, drawn.digestHex),
                     if choice == authoritative then config.correctReward else 0, now)
  }

  /** A prediction is accepted exactly if it is one of the configured choices and nothing else is submitted; it is correct
      exactly if it is the drawn choice, which alone earns the configured reward. */
  lemma PlayedCard(ctx: Ctx, s: Slice, owner: Uuid, now: int, intent: Intent, drawn: Uniform, outcomeId: Uuid)
    requires s.session.gameKey == "prediction_card" && ctx.config.PredictionCardConfig?
    ensures var choices, reward := ctx.config.choices, ctx.config.correctReward;
      var step := PlaySession(ctx, s, owner, now, intent, drawn, outcomeId);
      && (step.reply == Done <==>
            && Playable(s, owner, now) && intent.actions.None? && intent.choice.Some? && intent.choice.value in choices
            && drawn.Value? && drawn.value < |choices|
            && (intent.choice.value == choices[drawn.value] ==> reward < 0x8000_0000))
      && (step.reply == Done ==> PaysCard(ctx.config, s, step.slice, intent, drawn, outcomeId, now))
  {
    if Running(s, now) { RunningIsLeftAlone(ctx, s, now); }
    hide EndCommitted;
  }

  /** `n` is how far the actions follow the challenge. */
  predicate Follows(actions: seq<int>, challenge: seq<int>, n: nat) {
    && n <= |actions| && n <= |challenge| && actions[..n] == challenge[..n]
    && (n == |actions| || n == |challenge| || actions[n] != challenge[n])
  }

  /** The milliseconds between two times in microseconds, rounded down and not negative. */
  predicate Lasted(from: int, to: int, milliseconds: nat) {
    if to <= from then milliseconds == 0 else milliseconds * 1000 <= to - from < (milliseconds + 1) * 1000
  }

  /** The session has completed with the share of the maximum that the correctly answered beginning has of the challenge,
      rounded down, and that is the reward. */
  predicate PaysSkill(config: Config, s: Slice, s': Slice, intent: Intent, outcomeId: Uuid, now: int) {
    && config.SkillCheckConfig? && s.session.challenge.Some? && intent.actions.Some?
    && s'.outcome.Some? && s'.outcome.value.result.SkillResult?
    && var challenge, r := s.session.challenge.value, s'.outcome.value.result;
    && CompletedWith(s, s', outcomeId, r, r.score, now)
    && r.submittedActions == |intent.actions.value| && Follows(intent.actions.value, challenge, r.correctActions)
    && r.score * |challenge| <= config.maxScore * r.correctActions < (r.score + 1) * |challenge|
    && Lasted(s.session.createdAt, now, r.elapsedMs)
  }

  /** A skill check is accepted exactly if its actions are distinct and nothing else is submitted; it then earns what it scores. */
  lemma PlayedSkill(ctx: Ctx, s: Slice, owner: Uuid, now: int, intent: Intent, drawn: Uniform, outcomeId: Uuid)
    requires s.session.gameKey == "skill_check" && ctx.config.SkillCheckConfig?
    requires s.session.challenge.Some? && s.session.challenge.value != []
    ensures var challenge, most := s.session.challenge.value, ctx.config.maxScore;
      var step := PlaySession(ctx, s, owner, now, intent, drawn, outcomeId);
      && (step.reply == Done ==>
            && Playable(s, owner, now) && intent.choice.None? && intent.actions.Some?
            && (forall i, j | 0 <= i < j < |intent.actions.value| :: intent.actions.value[i] != intent.actions.value[j])
            && PaysSkill(ctx.config, s, step.slice, intent, outcomeId, now))
      && (Playable(s, owner, now) && intent.choice.None? && intent.actions.Some? && most < 0x8000_0000
          && (forall i, j | 0 <= i < j < |intent.actions.value| :: intent.actions.value[i] != intent.actions.value[j])
          ==> step.reply == Done)
  {
    if Running(s, now) { RunningIsLeftAlone(ctx, s, now); }
    if intent.actions.Some? {
      var challenge, actions := s.session.challenge.value, intent.actions.value;
      var n := CommonPrefix(actions, challenge);
      PrefixFollows(actions, challenge);
      SkillScoreIsFloor(ctx.config.maxScore, n, |challenge|);
      SkillScoreOrder(ctx.config.maxScore, n, n, |challenge|);
    }
    ElapsedLasted(s.session.createdAt, now);
    hide EndCommitted, CommonPrefix, SkillScore, ElapsedMs, Lasted, Follows;
  }

  lemma ElapsedLasted(from: int, to: int)
    ensures Lasted(from, to, ElapsedMs(from, to))
  {
  }

  lemma {:induction false} PrefixFollows(actions: seq<int>, challenge: seq<int>)
    ensures Follows(actions, challenge, CommonPrefix(actions, challenge))
  {
    if actions != [] && challenge != [] && actions[0] == challenge[0] {
      PrefixFollows(actions[1..], challenge[1..]);
      var n := CommonPrefix(actions, challenge);
      assert actions[..n] == [actions[0]] + actions[1..][..n - 1];
      assert challenge[..n] == [challenge[0]] + challenge[1..][..n - 1];
    }
  }

  // ---------- score and claim ----------

  /** What a completed session scores under its configuration. */
  predicate Scores(gameKey: string, config: Config, result: Result, value: int) {
    || (gameKey == "daily_spin" && config.DailySpinConfig? && result.SpinResult?
        && exists i :: 0 <= i < |config.rewards| && config.rewards[i].key == result.rewardKey
             && config.rewards[i].value == value && forall j | 0 <= j < i :: config.rewards[j].key != result.rewardKey)
    || (gameKey == "prediction_card" && config.PredictionCardConfig?
        && value == if result.CardResult? && result.correct then config.correctReward else 0)
    || (gameKey == "skill_check" && config.SkillCheckConfig? && result.SkillResult? && value == result.score
        && 0 <= value <= config.maxScore)
  }

  lemma {:induction false} BandValueIsFirst(bands: seq<RewardBand>, key: seq<CodePoint>) returns (i: nat)
    requires BandValue(bands, key).Some?
    ensures i < |bands| && bands[i].key == key && bands[i].value == BandValue(bands, key).value
    ensures forall j | 0 <= j < i :: bands[j].key != key
  {
    if bands[0].key == key {
      i := 0;
    } else {
      var k := BandValueIsFirst(bands[1..], key);
      i := k + 1;
      assert forall j | 1 <= j < i :: bands[j] == bands[1..][j - 1];
    }
  }

  lemma ScoresIt(gameKey: string, config: Config, result: Result)
    requires LeaderboardScore(gameKey, config, result).Some?
    ensures Scores(gameKey, config, result, LeaderboardScore(gameKey, config, result).value)
  {
    if gameKey == DAILY_SPIN {
      var i := BandValueIsFirst(config.rewards, result.rewardKey);
    }
  }

  /** The Monday of the week, in microseconds since 1970: 1970-01-05 was one. */
  predicate StartsWeekOf(start: int, at: int) {
    (start - 345_600_000_000) % 604_800_000_000 == 0 && start <= at < start + 604_800_000_000
  }

  lemma PeriodStartsWeek(at: int)
    ensures StartsWeekOf(PeriodStart(at), at)
  {
    PeriodIsTheWeek(at, PeriodStart(at));
  }

  /** A submission that does its work is the owner's, of a completed session in its own week; it adds the score of the outcome
      at the time the session ended, and nothing else. */
  lemma ScoredRows(ctx: Ctx, s: Slice, owner: Uuid, now: int, playerActive: bool, scoreId: Uuid)
    requires SubmitFinalScore(ctx, s, owner, now, playerActive, scoreId).reply == Done
    ensures owner == s.session.playerId && playerActive && s.score.None?
    ensures s.session.status == Completed && s.session.endedAt.Some? && s.outcome.Some?
    ensures var s' := SubmitFinalScore(ctx, s, owner, now, playerActive, scoreId).slice;
      && s'.score.Some? && s' == s.(score := s'.score)
      && var score := s'.score.value;
      && score.id == scoreId && score.outcomeId == s.outcome.value.id && score.completedAt == s.session.endedAt.value
      && StartsWeekOf(score.periodStart, score.completedAt) && now < score.periodStart + 604_800_000_000
      && Scores(s.session.gameKey, ctx.config, s.outcome.value.result, score.value) && 0 <= score.value <= 1_000_000
  {
    hide PeriodStart, Scores, StartsWeekOf;
    if LeaderboardScore(s.session.gameKey, ctx.config, s.outcome.value.result).Some? {
      ScoresIt(s.session.gameKey, ctx.config, s.outcome.value.result);
    }
    PeriodStartsWeek(s.session.endedAt.value);
    hide LeaderboardScore;
  }

  /** A claim succeeds exactly if it is the owner's and the reward is issued; it changes status and time of the reward only. */
  lemma ClaimedRows(s: Slice, owner: Uuid, now: int)
    ensures var step := ClaimSessionReward(s, owner, now);
      && (step.reply == Done <==> owner == s.session.playerId && s.reward.Some? && s.reward.value.status == Issued)
      && (step.reply == Done ==>
            && step.slice.reward.Some? && step.slice == s.(reward := step.slice.reward)
            && var before, after := s.reward.value, step.slice.reward.value;
            && after.status == Claimed && after.claimedAt == Some(now)
            && after.value == before.value && after.outcomeId == before.outcomeId)
      && (step.reply != Done ==> step.slice == s)
  {
  }

  // ---------- strangers ----------

  /** In every reachable state a call by anyone but the owner changes nothing and is refused; an evaluation that does not
      name the session's proof finds none. */
  lemma StrangersChangeNothing(ctx: Ctx, start: Slice, calls: seq<Call>, call: Call)
    requires DrawsEnd(ctx) && Created(start)
    ensures var s := After(ctx, start, calls);
      var step := Execute(ctx, s, call);
      call.owner != s.session.playerId ==>
        && step.slice == s
        && step.reply == Failed(if call.Evaluate? && (s.proof.None? || s.proof.value.id != call.proofId) then NotFound else Forbidden)
  {
    hide DrawsEnd, After, Inv;
    Reached(ctx, start, calls);
    var s := After(ctx, start, calls);
    if s.proof.Some? { BoundPlayer(ctx, s); }
  }

  // ---------- every answer to the owner ----------

  predicate Elapsed(s: Slice, now: int) {
    s.session.status == Active && s.session.expiresAt <= now
  }

  /** Sessions of the daily spin are drawn, not played. */
  function CommitAnswer(ctx: Ctx, s: Slice, now: int): Reply {
    if Elapsed(s, now) then Failed(SessionExpired)
    else if s.session.status != Active then Failed(InvalidTransition)
    else if s.proof.Some? then Replayed
    else if s.session.gameKey != "daily_spin" || !ctx.config.DailySpinConfig? then Failed(InvalidPlay)
    else if !ValidBands(ctx.config.rewards) then Failed(InvalidMapping)
    else Done
  }

  function EvaluateAnswer(ctx: Ctx, s: Slice, now: int, proofId: Uuid, clientSeed: seq<CodePoint>): Reply {
    if s.proof.None? || s.proof.value.id != proofId then Failed(NotFound)
    else if s.session.status == Completed then
      if s.proof.value.disclosure.Some? && s.proof.value.disclosure.value.fingerprint == ctx.fingerprint(proofId, clientSeed)
      then Replayed else Failed(IdempotencyConflict)
    else if Elapsed(s, now) then Failed(SessionExpired)
    else if s.session.status != Active then Failed(InvalidTransition)
    else if !ValidClientSeed(clientSeed) then Failed(InvalidPlay)
    else Done
  }

  function CancelAnswer(s: Slice): Reply {
    if s.session.status == Active then Done else Failed(InvalidTransition)
  }

  function SubmitAnswer(s: Slice, now: int, playerActive: bool): Reply {
    if s.score.Some? then Replayed
    else if !playerActive then Failed(InactivePlayer)
    else if s.session.gameKey !in {"daily_spin", "prediction_card", "skill_check"} then Failed(GameIneligible)
    else if s.session.status != Completed || s.session.endedAt.None? || s.reward.None? then Failed(InvalidTransition)
    else if now >= PeriodStart(s.session.endedAt.value) + 604_800_000_000 then Failed(PeriodClosed)
    else if s.reward.value.value > 1_000_000 then Failed(Integrity)
    else Done
  }

  function ClaimAnswer(s: Slice): Reply {
    if s.reward.None? then Failed(RewardUnavailable)
    else match s.reward.value.status case Issued => Done case Claimed => Replayed case Lapsed => Failed(RewardUnavailable)
  }

  /** What comes before a play is looked at; `None` goes on to the rules. */
  function PlayAnswer(s: Slice, now: int): Option<Reply> {
    if Elapsed(s, now) then Some(Failed(SessionExpired))
    else if s.session.status == Expired || s.session.status == Cancelled then Some(Failed(InvalidTransition))
    else if s.session.gameKey !in {"daily_spin", "prediction_card", "skill_check"} then Some(Failed(InvalidPlay))
    else if s.session.status == Completed && s.session.gameKey != "prediction_card" then Some(Failed(InvalidTransition))
    else if s.session.gameKey == "daily_spin" then Some(Failed(FairnessRequired))
    else None
  }

  ghost predicate Answers(ctx: Ctx, s: Slice, call: Call, reply: Reply) {
    match call
    case Commit(_, now, _, _) => reply == CommitAnswer(ctx, s, now)
    case Evaluate(_, now, proofId, clientSeed, _) => reply == EvaluateAnswer(ctx, s, now, proofId, clientSeed)
    case Cancel(_, _) => reply == CancelAnswer(s)
    case Retrieve(_, _) => reply == Done
    case Play(_, now, _, _, _) => PlayAnswer(s, now).Some? ==> reply == PlayAnswer(s, now).value
    case Submit(_, now, playerActive, _) => reply == SubmitAnswer(s, now, playerActive)
    case Claim(_, _) => reply == ClaimAnswer(s)
  }

  lemma CommitIsAnswered(ctx: Ctx, s: Slice, now: int, seed: ServerSeed, proofId: Uuid)
    requires Inv(ctx, s)
    ensures CommitFairness(ctx, s, s.session.playerId, now, seed, proofId).reply == CommitAnswer(ctx, s, now)
  {
    FinalizeIsSafe(ctx, s, now);
    hide Inv, Finalize, ValidBands, NewProof, NewEvent, FactsOf;
  }

  lemma EvaluateIsAnswered(ctx: Ctx, s: Slice, now: int, proofId: Uuid, clientSeed: seq<CodePoint>, outcomeId: Uuid)
    requires DrawsEnd(ctx) && Inv(ctx, s)
    ensures EvaluateFairness(ctx, s, s.session.playerId, now, proofId, clientSeed, outcomeId).reply
         == EvaluateAnswer(ctx, s, now, proofId, clientSeed)
  {
    hide Inv, Finalize, DrawsEnd, Draw, ValidClientSeed;
    if s.proof.Some? && s.proof.value.id == proofId {
      BoundPlayer(ctx, s);
      ProofGoesWithSession(ctx, s);
      FinalizeIsSafe(ctx, s, now);
      if s.proof.value.status == Committed && !Elapsed(s, now) && ValidClientSeed(clientSeed) {
        EvaluateWorks(ctx, s, now, clientSeed, outcomeId);
      } else if s.proof.value.status != Revealed && !Elapsed(s, now) {
        NotDrawn(ctx, s, now, clientSeed, outcomeId);
      }
    }
  }

  lemma ProofGoesWithSession(ctx: Ctx, s: Slice)
    requires Inv(ctx, s) && s.proof.Some?
    ensures match s.proof.value.status
            case Committed => s.session.status == Active
            case Revealed => s.session.status == Completed && s.proof.value.disclosure.Some? && s.outcome.Some? && s.reward.Some?
            case _ => s.session.status == Expired || s.session.status == Cancelled
  {
    hide Bound, ChainOf, ScoreInv, Evidenced, Produced, RewardValue;
  }

  lemma NotDrawn(ctx: Ctx, s: Slice, now: int, clientSeed: seq<CodePoint>, outcomeId: Uuid)
    requires DrawsEnd(ctx) && Inv(ctx, s) && s.proof.Some?
    requires s.proof.value.status != Committed || !ValidClientSeed(clientSeed)
    ensures Draw(ctx, s, s.proof.value, now, clientSeed, outcomeId).reply
         == Failed(if s.proof.value.status == Committed then InvalidPlay else InvalidTransition)
  {
    hide ChainOf, OutcomeInv, ScoreInv, ValidBands, ValidClientSeed, Derived, DrawsEnd, MappingDigest, HasSecond;
  }

  lemma CancelIsAnswered(ctx: Ctx, s: Slice, now: int)
    requires Inv(ctx, s)
    ensures CancelSession(ctx, s, s.session.playerId, now).reply == CancelAnswer(s)
  {
    hide Inv, Finalize, EndCommitted;
    FinalizeIsSafe(ctx, s, now);
    if Running(s, now) { CancelWorks(ctx, s, s.session.playerId, now); }
  }

  lemma SubmitIsAnswered(ctx: Ctx, s: Slice, now: int, playerActive: bool, scoreId: Uuid)
    requires Inv(ctx, s)
    ensures SubmitFinalScore(ctx, s, s.session.playerId, now, playerActive, scoreId).reply == SubmitAnswer(s, now, playerActive)
  {
    if s.session.status == Completed {
      ScoreIsReward(ctx, s);
      ProducedOutcomesScore(ctx.crypto, s.session.gameKey, ctx.config, s.outcome.value.result);
    }
    hide ProofInv, ScoreInv, Produced, RewardValue, LeaderboardScore, PeriodStart;
  }

  lemma PlayIsAnswered(ctx: Ctx, s: Slice, now: int, intent: Intent, drawn: Uniform, outcomeId: Uuid)
    requires Inv(ctx, s)
    ensures PlayAnswer(s, now).Some? ==>
      PlaySession(ctx, s, s.session.playerId, now, intent, drawn, outcomeId).reply == PlayAnswer(s, now).value
  {
    hide Finalize, ProofInv, ScoreInv, Produced, RewardValue, DirectPlay, Played;
    FinalizeIsSafe(ctx, s, now);
  }

  /** In every reachable state, the owner's call is answered by the first of its checks that fails, in this order, and does its
      work if none does. */
  lemma EveryAnswer(ctx: Ctx, start: Slice, calls: seq<Call>, call: Call)
    requires DrawsEnd(ctx) && Created(start) && call.owner == After(ctx, start, calls).session.playerId
    ensures Answers(ctx, After(ctx, start, calls), call, Execute(ctx, After(ctx, start, calls), call).reply)
  {
    hide DrawsEnd, After, Inv, Finalize, CommitFairness, EvaluateFairness, CancelSession, PlaySession,
         SubmitFinalScore, CommitAnswer, EvaluateAnswer, CancelAnswer, PlayAnswer, SubmitAnswer;
    Reached(ctx, start, calls);
    var s := After(ctx, start, calls);
    match call
    case Commit(_, now, seed, proofId) => CommitIsAnswered(ctx, s, now, seed, proofId);
    case Evaluate(_, now, proofId, clientSeed, outcomeId) => EvaluateIsAnswered(ctx, s, now, proofId, clientSeed, outcomeId);
    case Cancel(_, now) => CancelIsAnswered(ctx, s, now);
    case Retrieve(_, now) => FinalizeIsSafe(ctx, s, now);
    case Play(_, now, intent, drawn, outcomeId) => PlayIsAnswered(ctx, s, now, intent, drawn, outcomeId);
    case Submit(_, now, playerActive, scoreId) => SubmitIsAnswered(ctx, s, now, playerActive, scoreId);
    case Claim(_, _) =>
  }
}
