/** The service calls on one session as the program runs them: rows are read, fields assigned, and everything
    is put back when a call raises. Each method is the step of the lifecycle that carries its name. */
module SessionService {
  import opened Text
  import opened Bytes
  import opened Rng
  import opened SpinProof
  import opened FairnessEvents
  import opened GameRules
  import opened Lifecycle
  import opened LifecycleSafety
  import opened LifecycleRows
  import Board

  class SessionRecords {
    var session: Session
    var proof: Option<Proof>
    var custody: Option<seq<Byte>>
    var events: seq<Event>
    var outcome: Option<Outcome>
    var reward: Option<Reward>
    var score: Option<FinalScore>

    function Contents(): Slice
      reads this
    {
      Slice(session, proof, custody, events, outcome, reward, score)
    }

    constructor (session: Session)
      requires session.status == Active && session.endedAt.None?
      ensures this.session == session && Created(Contents())
    {
      this.session := session;
      proof, custody, events, outcome, reward, score := None, None, [], None, None, None;
    }

    /** ROLLBACK. */
    method Restore(saved: Slice)
      modifies this
      ensures Contents() == saved
    {
      session, proof, custody, events := saved.session, saved.proof, saved.custody, saved.events;
      outcome, reward, score := saved.outcome, saved.reward, saved.score;
    }

    method Expire(now: int) returns (changed: bool)
      modifies `session
      ensures session == ExpireIfDue(old(session), now) && (changed <==> session != old(session))
    {
      if session.status != Active || session.expiresAt > now { return false; }
      session := session.(status := Expired, endedAt := Some(now));
      changed := true;
    }

    /** `end_committed_fairness_proof`; `None` raises InvalidTransitionError. */
    method EndCommittedFairnessProof(ctx: Ctx, status: ProofStatus, now: int) returns (changed: Option<bool>)
      requires proof.Some?
      modifies this
      ensures match EndCommitted(ctx, old(Contents()), status, now)
              case None => changed.None? && Contents() == old(Contents())
              case Some(s) => Contents() == s && changed == Some(s.proof != old(proof))
    {
      hide NewEvent, FactsOf;
      if proof.value.status != Committed { return Some(false); }
      if status != ExpiredProof && status != CancelledProof { return None; }
      if events == [] { return None; }
      var latest := events[|events| - 1];
      proof := Some(proof.value.(status := status));
      custody := None;
      var event := NewEvent(ctx.hash, proof.value.id, latest.sequence + 1, status, Some(latest.hash),
                            TerminalPayload(FactsOf(proof.value), now), now);
      events := events + [event];
      changed := Some(true);
    }

    /** `finalize_expired_session`; `None` raises InvalidTransitionError. */
    method FinalizeExpiredSession(ctx: Ctx, now: int) returns (changed: Option<bool>)
      modifies this
      ensures match Finalize(ctx, old(Contents()), now)
              case None => changed.None?
              case Some((s, c)) => Contents() == s && changed == Some(c)
      ensures changed == Some(false) ==> Contents() == old(Contents())
    {
      UnreportedIsUnchanged(ctx, Contents(), now);
      hide EndCommitted;
      var sessionChanged := Expire(now);
      if !sessionChanged && session.status != Expired { return Some(false); }
      var proofChanged := Some(false);
      if proof.Some? {
        proofChanged := EndCommittedFairnessProof(ctx, ExpiredProof, now);
        if proofChanged.None? { return None; }
      } else {
        NothingToEnd(ctx, Contents(), ExpiredProof, now);
      }
      changed := Some(sessionChanged || proofChanged.value);
    }

    method CommitFairnessProof(ctx: Ctx, owner: Uuid, now: int, seed: ServerSeed, proofId: Uuid)
      returns (reply: Reply)
      modifies this
      ensures Step(Contents(), reply) == CommitFairness(ctx, old(Contents()), owner, now, seed, proofId)
    {
      hide Finalize, NewEvent, FactsOf, ValidBand, UniqueKeys, Commitment, MappingDigest;
      var saved := Contents();
      if session.playerId != owner { return Failed(Forbidden); }
      var changed := FinalizeExpiredSession(ctx, now);
      if changed.None? { Restore(saved); return Failed(InvalidTransition); }
      if changed.value { return Failed(SessionExpired); }
      assert Contents() == saved;
      if session.status != Active { return Failed(InvalidTransition); }
      if proof.Some? { return Replayed; }
      if !FairnessGame(session.gameKey) || !ctx.config.DailySpinConfig? { return Failed(InvalidPlay); }
      var valid := ValidateRewardBands(ctx.config.rewards);
      if !valid { return Failed(InvalidMapping); }
      proof := Some(NewProof(ctx, session, seed, proofId));
      custody := Some(seed);
      events := [NewEvent(ctx.hash, proofId, 0, Committed, None, CommitPayload(FactsOf(proof.value)), now)];
      reply := Done;
    }

    method EvaluateFairnessProof(ctx: Ctx, owner: Uuid, now: int, proofId: Uuid, clientSeed: seq<CodePoint>,
                                 outcomeId: Uuid) returns (reply: Reply)
      requires DrawsEnd(ctx)
      modifies this
      ensures Step(Contents(), reply) == EvaluateFairness(ctx, old(Contents()), owner, now, proofId, clientSeed, outcomeId)
    {
      hide Finalize, Draw, DrawsEnd;
      var saved := Contents();
      if proof.None? || proof.value.id != proofId { return Failed(NotFound); }
      if proof.value.playerId != owner { return Failed(Forbidden); }
      if proof.value.status == Revealed {
        if proof.value.disclosure.None? { return Failed(InvalidTransition); }
        if proof.value.disclosure.value.fingerprint != ctx.fingerprint(proofId, clientSeed) { return Failed(IdempotencyConflict); }
        if outcome.None? || reward.None? { return Failed(NotFound); }
        return Replayed;
      }
      var changed := FinalizeExpiredSession(ctx, now);
      if changed.None? { Restore(saved); return Failed(InvalidTransition); }
      if changed.value { return Failed(SessionExpired); }
      assert Contents() == saved;
      reply := DrawReward(ctx, now, clientSeed, outcomeId);
    }

    method DrawReward(ctx: Ctx, now: int, clientSeed: seq<CodePoint>, outcomeId: Uuid) returns (reply: Reply)
      requires DrawsEnd(ctx) && proof.Some?
      modifies this
      ensures Step(Contents(), reply) == Draw(ctx, old(Contents()), old(proof).value, now, clientSeed, outcomeId)
    {
      hide InputError, Derived, Reveals, HasSecond, ValidBands;
      if proof.value.status != Committed || session.status != Active { return Failed(InvalidTransition); }
      if custody.None? { return Failed(NotFound); }
      if !FairnessGame(session.gameKey) || !ctx.config.DailySpinConfig? { return Failed(InvalidPlay); }
      var input := InputFor(ctx, proof.value, custody.value, clientSeed);
      ghost var enough := Enough(ctx, input);
      var drawn := DeriveDailySpin(ctx.crypto, input, enough);
      if drawn.Err? { return Failed(InvalidPlay); }
      reply := RecordReveal(ctx, now, clientSeed, drawn.value, outcomeId);
    }

    /** The rows an evaluation inserts and updates, in that order. */
    method RecordReveal(ctx: Ctx, now: int, clientSeed: seq<CodePoint>, d: Derivation, outcomeId: Uuid)
      returns (reply: Reply)
      requires proof.Some? && custody.Some?
      modifies this
      ensures var s := old(Contents());
        Step(Contents(), reply) ==
          if s.outcome.Some? || s.reward.Some? then Refuse(s, Integrity)
          else if s.events == [] then Refuse(s, InvalidTransition)
          else if HasSecond(s.events) then Refuse(s, Integrity)
          else Step(Reveals(ctx, s, s.proof.value, s.events[|s.events| - 1], s.custody.value, clientSeed, d, outcomeId, now), Done)
    {
      hide NewEvent, FactsOf, SpinOutcome, HasSecond;
      var saved := Contents();
      if outcome.Some? { return Failed(Integrity); }
      outcome := Some(Outcome(outcomeId, SpinOutcome(d)));
      if reward.Some? { Restore(saved); return Failed(Integrity); }
      reward := Some(Reward(outcomeId, Issued, d.reward.value, None));
      proof := Some(Revelation(ctx, proof.value, custody.value, clientSeed, d, outcomeId, now));
      if events == [] { Restore(saved); return Failed(InvalidTransition); }
      var latest := events[|events| - 1];
      if HasSecond(events) { Restore(saved); return Failed(Integrity); }
      events := events + [NewEvent(ctx.hash, proof.value.id, 1, Revealed, Some(latest.hash),
                                   RevealedPayload(FactsOf(proof.value), proof.value.disclosure), now)];
      session := session.(status := Completed, endedAt := Some(now));
      reply := Done;
    }

    method Cancel(ctx: Ctx, owner: Uuid, now: int) returns (reply: Reply)
      modifies this
      ensures Step(Contents(), reply) == CancelSession(ctx, old(Contents()), owner, now)
    {
      hide Finalize, EndCommitted;
      var saved := Contents();
      if session.playerId != owner { return Failed(Forbidden); }
      var changed := FinalizeExpiredSession(ctx, now);
      if changed.None? { Restore(saved); return Failed(InvalidTransition); }
      if changed.value { return Done; }
      assert Contents() == saved;
      if session.status != Active { return Failed(InvalidTransition); }
      session := session.(status := Cancelled, endedAt := Some(now));
      if proof.Some? {
        var ended := EndCommittedFairnessProof(ctx, CancelledProof, now);
        if ended.None? { Restore(saved); return Failed(InvalidTransition); }
      } else {
        NothingToEnd(ctx, Contents(), CancelledProof, now);
      }
      reply := Done;
    }

    method Retrieve(ctx: Ctx, owner: Uuid, now: int) returns (reply: Reply)
      modifies this
      ensures Step(Contents(), reply) == RetrieveSession(ctx, old(Contents()), owner, now)
    {
      hide Finalize;
      var saved := Contents();
      if session.playerId != owner { return Failed(Forbidden); }
      var changed := FinalizeExpiredSession(ctx, now);
      if changed.None? { Restore(saved); return Failed(InvalidTransition); }
      reply := Done;
    }

    /** A second play of a session that is no longer active. */
    method Retry(intent: Intent) returns (reply: Reply)
      ensures Step(Contents(), reply) == RetryPlay(Contents(), intent)
    {
      hide RetryMatches;
      if session.status != Completed || outcome.None? { return Failed(InvalidTransition); }
      if !KnownGame(session.gameKey) { return Failed(InvalidPlay); }
      if FairnessGame(session.gameKey) { return Failed(InvalidTransition); }
      var same := RetryMatches(session.gameKey, outcome.value.result, intent);
      if same.None? { return Failed(InvalidTransition); }
      if !same.value { return Failed(IdempotencyConflict); }
      reply := Replayed;
    }

    method Play(ctx: Ctx, owner: Uuid, now: int, intent: Intent, drawn: Uniform, outcomeId: Uuid)
      returns (reply: Reply)
      modifies this
      ensures Step(Contents(), reply) == PlaySession(ctx, old(Contents()), owner, now, intent, drawn, outcomeId)
      ensures reply == Done && old(session).gameKey == "prediction_card" && ctx.config.PredictionCardConfig? ==>
        PaysCard(ctx.config, old(Contents()), Contents(), intent, drawn, outcomeId, now)
      ensures reply == Done && old(session).gameKey == "skill_check" && ctx.config.SkillCheckConfig?
              && old(session).challenge.Some? && old(session).challenge.value != [] ==>
        PaysSkill(ctx.config, old(Contents()), Contents(), intent, outcomeId, now)
    {
      hide Finalize, RewardValue, SkillPlay, CardPlay, RetryMatches, PaysCard, PaysSkill;
      if session.gameKey == "prediction_card" && ctx.config.PredictionCardConfig? {
        PlayedCard(ctx, Contents(), owner, now, intent, drawn, outcomeId);
      }
      if session.gameKey == "skill_check" && ctx.config.SkillCheckConfig? && session.challenge.Some? && session.challenge.value != [] {
        PlayedSkill(ctx, Contents(), owner, now, intent, drawn, outcomeId);
      }
      var saved := Contents();
      if session.playerId != owner { return Failed(Forbidden); }
      var changed := FinalizeExpiredSession(ctx, now);
      if changed.None? { Restore(saved); return Failed(InvalidTransition); }
      if changed.value { return Failed(SessionExpired); }
      assert Contents() == saved;
      if session.status != Active {
        reply := Retry(intent);
        return;
      }
      if !KnownGame(session.gameKey) { return Failed(InvalidPlay); }
      if FairnessGame(session.gameKey) { return Failed(FairnessRequired); }
      var play := CardPlay(ctx.config, intent, drawn);
      if session.gameKey != PREDICTION_CARD {
        play := EvaluateSkillCheck(ctx.config, session.challenge, intent, session.createdAt, now);
      }
      if play.Invalid? { return Failed(InvalidPlay); }
      if play.Fault? { return Failed(ServiceError.Fault); }
      if outcome.Some? { return Failed(Integrity); }
      outcome := Some(Outcome(outcomeId, play.result));
      if reward.Some? { Restore(saved); return Failed(Integrity); }
      var value := RewardValue(session.gameKey, ctx.config, play.result);
      if value.None? { Restore(saved); return Failed(InvalidPlay); }
      if value.value > MAX_REWARD_VALUE { Restore(saved); return Failed(Integrity); }
      reward := Some(Reward(outcomeId, Issued, value.value, None));
      session := session.(status := Completed, endedAt := Some(now));
      reply := Done;
    }

    method SubmitScore(ctx: Ctx, owner: Uuid, now: int, playerActive: bool, scoreId: Uuid) returns (reply: Reply)
      modifies `score
      ensures Step(Contents(), reply) == SubmitFinalScore(ctx, old(Contents()), owner, now, playerActive, scoreId)
    {
      hide LeaderboardScore, PeriodStart;
      if session.playerId != owner { return Failed(Forbidden); }
      if score.Some? { return Replayed; }
      if !playerActive { return Failed(InactivePlayer); }
      if !KnownGame(session.gameKey) { return Failed(GameIneligible); }
      if session.status != Completed || session.endedAt.None? { return Failed(InvalidTransition); }
      if outcome.None? { return Failed(InvalidTransition); }
      var value := LeaderboardScore(session.gameKey, ctx.config, outcome.value.result);
      if value.None? { return Failed(InvalidPlay); }
      var start := PeriodStart(session.endedAt.value);
      if now >= start + WEEK_US { return Failed(PeriodClosed); }
      if !Board.Storable(value.value) { return Failed(Integrity); }
      score := Some(FinalScore(scoreId, outcome.value.id, start, session.endedAt.value, value.value));
      reply := Done;
    }

    method ClaimReward(owner: Uuid, now: int) returns (reply: Reply)
      modifies `reward
      ensures Step(Contents(), reply) == ClaimSessionReward(old(Contents()), owner, now)
    {
      if session.playerId != owner { return Failed(Forbidden); }
      if reward.None? { return Failed(RewardUnavailable); }
      if reward.value.status == Claimed { return Replayed; }
      if reward.value.status != Issued { return Failed(RewardUnavailable); }
      reward := Some(reward.value.(status := Claimed, claimedAt := Some(now)));
      reply := Done;
    }

    /** `verify_fairness_proof` of a revealed proof: the draw first, then the chain. `None` is a TypeError. */
    method VerifyProof(ctx: Ctx) returns (r: Option<(bool, string)>)
      requires DrawsEnd(ctx) && ctx.config.DailySpinConfig? && proof.Some? && proof.value.disclosure.Some?
      ensures var verdict := Verification(ctx, Contents());
        r.None? <==> verdict.Crash?
      ensures r.Some? && r.value.0 <==>
        && Verification(ctx, Contents()) == Verdict(true, "verified")
        && events != [] && Chained(ctx.hash, events) && AgreesWith(proof.value, events)
    {
      hide DrawsEnd, Published, Expected, ValidInput, Chained, AgreesWith;
      var published := Published(ctx, proof.value, proof.value.disclosure.value);
      ghost var enough := Enough(ctx, InputOf(published));
      var verdict := VerifyDailySpinProof(ctx.crypto, published, enough);
      VerdictShape(ctx, Contents());
      match verdict {
        case Crash => r := None;
        case Verdict(verified, code) =>
          if !verified { return Some((false, code)); }
          var ok, chainCode := VerifyFairnessEventChain(ctx.hash, proof.value, events);
          r := Some((ok, chainCode));
      }
    }
  }

  /** The verdict on the published draw of a session. */
  ghost function Verification(ctx: Ctx, s: Slice): Verdict
    requires DrawsEnd(ctx) && ctx.config.DailySpinConfig? && s.proof.Some? && s.proof.value.disclosure.Some?
  {
    var published := Published(ctx, s.proof.value, s.proof.value.disclosure.value);
    assert ValidInput(InputOf(published)) ==> Ends(ctx.crypto, InputOf(published));
    Expected(ctx.crypto, published)
  }

  lemma VerdictShape(ctx: Ctx, s: Slice)
    requires DrawsEnd(ctx) && ctx.config.DailySpinConfig? && s.proof.Some? && s.proof.value.disclosure.Some?
    ensures var verdict := Verification(ctx, s); verdict.Verdict? && verdict.verified ==> verdict == Verdict(true, "verified")
  {
    hide ValidInput, Derived, IsDigestText, Commitment;
  }

  /** Finalising that reports no change has changed nothing. */
  lemma UnreportedIsUnchanged(ctx: Ctx, s: Slice, now: int)
    ensures var r := Finalize(ctx, s, now); r.Some? && !r.value.1 ==> r.value.0 == s
  {
    hide NewEvent, FactsOf;
  }

  lemma NothingToEnd(ctx: Ctx, s: Slice, status: ProofStatus, now: int)
    requires s.proof.None?
    ensures EndCommitted(ctx, s, status, now) == Some(s)
  {
  }

  lemma Enough(ctx: Ctx, input: SpinInput) returns (enough: nat)
    requires DrawsEnd(ctx)
    ensures ValidInput(input) ==> Accepted(ctx.crypto, input, enough)
  {
    enough := 0;
    if ValidInput(input) {
      assert Ends(ctx.crypto, input);
      enough :| Accepted(ctx.crypto, input, enough);
    }
  }
}
