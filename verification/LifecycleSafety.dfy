/** What holds of a session and everything attached to it in every run of service calls. */
module LifecycleSafety {
  import opened Text
  import opened Bytes
  import opened Rng
  import opened Encoding
  import opened SpinProof
  import opened FairnessEvents
  import opened GameRules
  import opened Lifecycle
  import Board

  // ---------- the invariant ----------

  /** The proof is that of this session, under the configuration the session is pinned to. */
  ghost predicate Bound(ctx: Ctx, session: Session, p: Proof) {
    && p.sessionId == session.id && p.playerId == session.playerId && p.configVersionId == session.configVersionId
    && session.gameKey == DAILY_SPIN && p.versions == SUPPORTED && p.nonce == 0
    && ctx.config.DailySpinConfig? && ValidBands(ctx.config.rewards)
    && p.mappingDigest == MappingDigest(ctx.crypto, ctx.config.rewards)
  }

  ghost predicate StartsWithCommit(ctx: Ctx, p: Proof, events: seq<Event>) {
    && Chained(ctx.hash, events) && AllV2(events) && events != []
    && events[0].status == Committed && events[0].payload == CommitPayload(FactsOf(p))
  }

  /** A committed proof has exactly its first event, every other proof exactly one more, of its own status. */
  ghost predicate ChainOf(ctx: Ctx, p: Proof, events: seq<Event>) {
    && StartsWithCommit(ctx, p, events)
    && (p.status == Committed ==> |events| == 1)
    && (p.status != Committed ==> |events| == 2 && events[1].status == p.status)
    && (p.status == Revealed ==> events[1].payload == RevealedPayload(FactsOf(p), p.disclosure))
  }

  /** The revealed evidence is what the committed seed and the client's seed yield. */
  ghost predicate Evidenced(ctx: Ctx, s: Slice, p: Proof, seed: seq<Byte>, seal: Disclosure)
    requires ctx.config.DailySpinConfig?
  {
    var input := InputFor(ctx, p, seed, seal.clientSeed);
    && ValidInput(input) && Ends(ctx.crypto, input)
    && var d := Derived(ctx.crypto, input);
    && p.commitment == Commitment(ctx.crypto, seed)
    && seal == Disclosure(seal.outcomeId, seal.clientSeed, ctx.fingerprint(p.id, seal.clientSeed), d.rawDigestHex, d.normalizedValue,
                          d.attempt, d.reward.key, d.reward.value, seal.evaluatedAt, Hex(seed), seal.evaluatedAt)
    && s.session.endedAt == Some(seal.evaluatedAt)
    && s.outcome == Some(Outcome(seal.outcomeId, SpinOutcome(d)))
    && s.reward.Some? && s.reward.value.value == d.reward.value
  }

  /** Status by status: session, seed custody, evidence and outcome go together. */
  ghost predicate StatusInv(ctx: Ctx, s: Slice, p: Proof)
    requires ctx.config.DailySpinConfig?
  {
    match p.status
    case Committed =>
      && s.session.status == Active && p.disclosure.None? && s.outcome.None?
      && s.custody.Some? && |s.custody.value| == 32 && p.commitment == Commitment(ctx.crypto, s.custody.value)
    case Revealed =>
      && s.session.status == Completed && p.disclosure.Some?
      && s.custody.Some? && Evidenced(ctx, s, p, s.custody.value, p.disclosure.value)
    case ExpiredProof => s.session.status == Expired && p.disclosure.None? && s.custody.None? && s.outcome.None?
    case CancelledProof => s.session.status == Cancelled && p.disclosure.None? && s.custody.None? && s.outcome.None?
  }

  ghost predicate ProofInv(ctx: Ctx, s: Slice) {
    match s.proof
    case None => s.custody.None? && s.events == []
    case Some(p) => Bound(ctx, s.session, p) && ChainOf(ctx, p, s.events) && StatusInv(ctx, s, p)
  }

  /** A session completes with exactly one outcome and one reward, worth what the outcome earns. */
  ghost predicate OutcomeInv(ctx: Ctx, s: Slice) {
    && (s.outcome.Some? <==> s.session.status == Completed)
    && (s.reward.Some? <==> s.outcome.Some?)
    && (s.outcome.Some? ==>
          && s.reward.value.outcomeId == s.outcome.value.id
          && Produced(ctx.crypto, s.session.gameKey, ctx.config, s.outcome.value.result)
          && RewardValue(s.session.gameKey, ctx.config, s.outcome.value.result) == Some(s.reward.value.value))
  }

  /** A score is the reward of the same outcome, in the week the session ended. */
  ghost predicate ScoreInv(s: Slice) {
    s.score.Some? ==>
      && s.outcome.Some? && s.reward.Some? && s.score.value.outcomeId == s.outcome.value.id
      && s.score.value.value == s.reward.value.value && Board.Storable(s.score.value.value)
      && s.session.endedAt == Some(s.score.value.completedAt)
      && s.score.value.periodStart == PeriodStart(s.score.value.completedAt)
  }

  ghost predicate Inv(ctx: Ctx, s: Slice) {
    && (s.session.status == Active <==> s.session.endedAt.None?)
    && ProofInv(ctx, s) && OutcomeInv(ctx, s) && ScoreInv(s)
  }

  lemma CreatedIsInv(ctx: Ctx, s: Slice)
    requires Created(s)
    ensures Inv(ctx, s)
  {
  }

  // ---------- ending ----------

  lemma LatestIsLink(events: seq<Event>)
    requires events != []
    ensures Latest(events).Some? && LinkTo(events, |events|) == Some(Latest(events).value.hash)
  {
  }

  /** The one event of a committed proof has sequence number 0, so the next has 1. */
  lemma SecondEvent(ctx: Ctx, p: Proof, p': Proof, events: seq<Event>, payload: Payload, now: int)
    requires ChainOf(ctx, p, events) && p.status == Committed && FactsOf(p') == FactsOf(p) && p'.status != Committed
    requires p'.status == Revealed ==> payload == RevealedPayload(FactsOf(p'), p'.disclosure)
    ensures Latest(events).Some? && Latest(events).value.sequence == 0
    ensures var event := NewEvent(ctx.hash, p.id, 1, p'.status, Some(Latest(events).value.hash), payload, now);
      ChainOf(ctx, p', events + [event])
  {
    LatestIsLink(events);
    assert Sound(ctx.hash, events, 0);
    ChainGrows(ctx.hash, events, p.id, p'.status, payload, now);
  }

  /** Ending keeps the invariant once the session has got its own terminal status. */
  lemma EndingIsSafe(ctx: Ctx, s: Slice, session: Session, status: ProofStatus, now: int)
    requires Inv(ctx, s) && s.session.status == Active
    requires session == s.session.(status := session.status, endedAt := Some(now))
    requires (status == ExpiredProof && session.status == Expired) || (status == CancelledProof && session.status == Cancelled)
    ensures var ended := EndCommitted(ctx, s.(session := session), status, now);
      ended.Some? && Inv(ctx, ended.value) && ended.value.session == session
  {
    hide MappingDigest, FactsOf, NewEvent;
    if s.proof.Some? {
      var p := s.proof.value;
      var p' := p.(status := status);
      SameFacts(p, p');
      SecondEvent(ctx, p, p', s.events, TerminalPayload(FactsOf(p'), now), now);
      hide ChainOf;
    }
  }

  lemma SameFacts(p: Proof, p': Proof)
    requires p' == p.(status := p'.status, disclosure := p'.disclosure)
    ensures FactsOf(p') == FactsOf(p)
  {
  }

  /** Finalising never fails, keeps the invariant, and reports exactly whether anything changed. */
  lemma FinalizeIsSafe(ctx: Ctx, s: Slice, now: int)
    requires Inv(ctx, s)
    ensures var r := Finalize(ctx, s, now);
      && r.Some? && Inv(ctx, r.value.0)
      && (r.value.1 <==> s.session.status == Active && s.session.expiresAt <= now)
      && (!r.value.1 ==> r.value.0 == s)
      && (r.value.1 ==> r.value.0.session == s.session.(status := Expired, endedAt := Some(now)))
  {
    hide Bound, ChainOf, OutcomeInv, ScoreInv, Evidenced;
    var session := ExpireIfDue(s.session, now);
    if session != s.session {
      EndingIsSafe(ctx, s, session, ExpiredProof, now);
    }
  }

  // ---------- each call ----------

  lemma CommitIsSafe(ctx: Ctx, s: Slice, owner: Uuid, now: int, seed: ServerSeed, proofId: Uuid)
    requires Inv(ctx, s)
    ensures Inv(ctx, CommitFairness(ctx, s, owner, now, seed, proofId).slice)
  {
    FinalizeIsSafe(ctx, s, now);
    hide Finalize;
    var step := CommitFairness(ctx, s, owner, now, seed, proofId);
    if step.reply == Done {
      var proof := NewProof(ctx, s.session, seed, proofId);
      ChainGrows(ctx.hash, [], proofId, Committed, CommitPayload(FactsOf(proof)), now);
      assert [] + step.slice.events == step.slice.events;
      hide NewEvent, MappingDigest, Commitment;
    }
  }

  lemma RevealIsSafe(ctx: Ctx, s: Slice, p: Proof, now: int, clientSeed: seq<CodePoint>, outcomeId: Uuid)
    requires DrawsEnd(ctx) && Inv(ctx, s) && s.proof == Some(p)
    requires Draw(ctx, s, p, now, clientSeed, outcomeId).reply == Done
    ensures Inv(ctx, Draw(ctx, s, p, now, clientSeed, outcomeId).slice)
  {
    hide ValidInput, Ends, Derived, MappingDigest, NewEvent, Commitment, Produced, RewardValue, FactsOf;
    var seed := s.custody.value;
    var input := InputFor(ctx, p, seed, clientSeed);
    assert Ends(ctx.crypto, input);
    var d := Derived(ctx.crypto, input);
    var p' := Revelation(ctx, p, seed, clientSeed, d, outcomeId, now);
    SameFacts(p, p');
    SecondEvent(ctx, p, p', s.events, RevealedPayload(FactsOf(p'), p'.disclosure), now);
    hide ChainOf;
    var s' := Draw(ctx, s, p, now, clientSeed, outcomeId).slice;
    assert s' == Reveals(ctx, s, p, Latest(s.events).value, seed, clientSeed, d, outcomeId, now);
    SpinEarnsItsBand(ctx.crypto, ctx.config, input);
    SpinIsProduced(ctx, input);
  }

  lemma SpinIsProduced(ctx: Ctx, input: SpinInput)
    requires ctx.config.DailySpinConfig? && ValidInput(input) && Ends(ctx.crypto, input)
    requires input.bands == ctx.config.rewards
    ensures Produced(ctx.crypto, DAILY_SPIN, ctx.config, SpinOutcome(Derived(ctx.crypto, input)))
  {
    hide Ends, Derived, ValidInput;
  }

  lemma EvaluateIsSafe(ctx: Ctx, s: Slice, owner: Uuid, now: int, proofId: Uuid, clientSeed: seq<CodePoint>,
                       outcomeId: Uuid)
    requires DrawsEnd(ctx) && Inv(ctx, s)
    ensures Inv(ctx, EvaluateFairness(ctx, s, owner, now, proofId, clientSeed, outcomeId).slice)
  {
    hide Inv, Finalize, Reveals, ValidInput, Ends, DrawsEnd;
    FinalizeIsSafe(ctx, s, now);
    if s.proof.Some? && Draw(ctx, s, s.proof.value, now, clientSeed, outcomeId).reply == Done {
      RevealIsSafe(ctx, s, s.proof.value, now, clientSeed, outcomeId);
    }
  }

  lemma CancelIsSafe(ctx: Ctx, s: Slice, owner: Uuid, now: int)
    requires Inv(ctx, s)
    ensures Inv(ctx, CancelSession(ctx, s, owner, now).slice)
  {
    hide Finalize, EndCommitted, ProofInv, OutcomeInv, ScoreInv;
    FinalizeIsSafe(ctx, s, now);
    if s.session.status == Active {
      EndingIsSafe(ctx, s, s.session.(status := Cancelled, endedAt := Some(now)), CancelledProof, now);
    }
  }

  lemma PlayIsSafe(ctx: Ctx, s: Slice, owner: Uuid, now: int, intent: Intent, drawn: Uniform, outcomeId: Uuid)
    requires Inv(ctx, s)
    ensures Inv(ctx, PlaySession(ctx, s, owner, now, intent, drawn, outcomeId).slice)
  {
    hide Finalize, Bound, ChainOf, Evidenced, Produced, RewardValue, SkillPlay, CardPlay;
    FinalizeIsSafe(ctx, s, now);
    if s.session.status == Active && KnownGame(s.session.gameKey) && !FairnessGame(s.session.gameKey)
       && DirectPlay(ctx, s.session, intent, drawn, now).Evaluated? {
      PlayIsProduced(ctx, s.session, intent, drawn, now);
      NoDirectProof(ctx, s);
    }
  }

  lemma NoDirectProof(ctx: Ctx, s: Slice)
    requires Inv(ctx, s) && !FairnessGame(s.session.gameKey)
    ensures s.proof.None?
  {
  }

  lemma PlayIsProduced(ctx: Ctx, session: Session, intent: Intent, drawn: Uniform, now: int)
    requires KnownGame(session.gameKey) && !FairnessGame(session.gameKey)
    requires DirectPlay(ctx, session, intent, drawn, now).Evaluated?
    ensures Produced(ctx.crypto, session.gameKey, ctx.config, DirectPlay(ctx, session, intent, drawn, now).result)
  {
    hide SkillPlay, CardPlay;
  }

  lemma SubmitIsSafe(ctx: Ctx, s: Slice, owner: Uuid, now: int, playerActive: bool, scoreId: Uuid)
    requires Inv(ctx, s)
    ensures Inv(ctx, SubmitFinalScore(ctx, s, owner, now, playerActive, scoreId).slice)
  {
    hide Bound, ChainOf, Ends, ValidInput, Derived, Produced, RewardValue, LeaderboardScore, PeriodStart;
    if s.outcome.Some? {
      ProducedOutcomesScore(ctx.crypto, s.session.gameKey, ctx.config, s.outcome.value.result);
    }
  }

  lemma ClaimIsSafe(ctx: Ctx, s: Slice, owner: Uuid, now: int)
    requires Inv(ctx, s)
    ensures Inv(ctx, ClaimSessionReward(s, owner, now).slice)
  {
    hide Bound, ChainOf, Produced, RewardValue, PeriodStart, Ends, ValidInput, Derived;
  }

  lemma CallIsSafe(ctx: Ctx, s: Slice, call: Call)
    requires DrawsEnd(ctx) && Inv(ctx, s)
    ensures Inv(ctx, Execute(ctx, s, call).slice)
  {
    hide Inv, DrawsEnd, CommitFairness, EvaluateFairness, CancelSession, RetrieveSession, PlaySession,
         SubmitFinalScore, ClaimSessionReward;
    match call
    case Commit(owner, now, seed, proofId) => CommitIsSafe(ctx, s, owner, now, seed, proofId);
    case Evaluate(owner, now, proofId, clientSeed, outcomeId) => EvaluateIsSafe(ctx, s, owner, now, proofId, clientSeed, outcomeId);
    case Cancel(owner, now) => CancelIsSafe(ctx, s, owner, now);
    case Retrieve(owner, now) => RetrieveIsSafe(ctx, s, owner, now);
    case Play(owner, now, intent, drawn, outcomeId) => PlayIsSafe(ctx, s, owner, now, intent, drawn, outcomeId);
    case Submit(owner, now, playerActive, scoreId) => SubmitIsSafe(ctx, s, owner, now, playerActive, scoreId);
    case Claim(owner, now) => ClaimIsSafe(ctx, s, owner, now);
  }

  lemma RetrieveIsSafe(ctx: Ctx, s: Slice, owner: Uuid, now: int)
    requires Inv(ctx, s)
    ensures Inv(ctx, RetrieveSession(ctx, s, owner, now).slice)
  {
    hide Inv, Finalize;
    FinalizeIsSafe(ctx, s, now);
  }

  // ---------- every run ----------

  lemma {:induction false} RunIsSafe(ctx: Ctx, s: Slice, calls: seq<Call>)
    requires DrawsEnd(ctx) && Inv(ctx, s)
    ensures Inv(ctx, After(ctx, s, calls))
    decreases |calls|
  {
    hide Inv, Execute, DrawsEnd;
    if calls != [] {
      CallIsSafe(ctx, s, calls[0]);
      RunIsSafe(ctx, Execute(ctx, s, calls[0]).slice, calls[1..]);
    }
  }

  // ---------- what a reachable state looks like ----------

  /** Read off the invariant, proof status by proof status, in any state that any sequence of calls can reach. */
  lemma EveryReachableState(ctx: Ctx, start: Slice, calls: seq<Call>)
    requires DrawsEnd(ctx) && Created(start)
    ensures var s := After(ctx, start, calls);
      && (s.proof.Some? && s.proof.value.status == Committed ==>
            && s.session.status == Active && s.outcome.None? && s.reward.None? && |s.events| == 1
            && s.custody.Some? && Commitment(ctx.crypto, s.custody.value) == s.proof.value.commitment)
      && (s.proof.Some? && s.proof.value.status == Revealed ==>
            && s.session.status == Completed && s.outcome.Some? && s.reward.Some? && |s.events| == 2
            && s.proof.value.disclosure.Some? && s.proof.value.disclosure.value.outcomeId == s.outcome.value.id
            && s.proof.value.disclosure.value.rewardValue == s.reward.value.value)
      && (s.proof.Some? && s.proof.value.status == ExpiredProof ==>
            s.session.status == Expired && s.custody.None? && s.outcome.None? && |s.events| == 2)
      && (s.proof.Some? && s.proof.value.status == CancelledProof ==>
            s.session.status == Cancelled && s.custody.None? && s.outcome.None? && |s.events| == 2)
      && (s.session.status == Completed <==> s.outcome.Some?) && (s.outcome.Some? <==> s.reward.Some?)
      && (s.score.Some? ==> s.reward.Some? && s.score.value.value == s.reward.value.value)
  {
    hide After, Produced, RewardValue, Ends, ValidInput, Derived, MappingDigest, Chained, PeriodStart;
    CreatedIsInv(ctx, start);
    RunIsSafe(ctx, start, calls);
    assert Inv(ctx, After(ctx, start, calls));
  }

  // ---------- terminal states are final ----------

  predicate IsClaimed(s: Slice) {
    s.reward.Some? && s.reward.value.status == Claimed
  }

  /** Nothing but one claim of the reward and the entry of a score happens to a session that has ended. */
  ghost predicate Settled(s: Slice, s': Slice) {
    && s'.session == s.session && s'.proof == s.proof && s'.custody == s.custody && s'.events == s.events
    && s'.outcome == s.outcome
    && (s.reward.Some? ==> s'.reward.Some? && s'.reward.value.value == s.reward.value.value
                           && s'.reward.value.outcomeId == s.reward.value.outcomeId)
    && (IsClaimed(s) ==> s'.reward == s.reward)
    && (s.score.Some? ==> s'.score == s.score)
  }

  lemma EndedStays(ctx: Ctx, s: Slice, call: Call)
    requires DrawsEnd(ctx) && Inv(ctx, s) && s.session.status != Active
    ensures Settled(s, Execute(ctx, s, call).slice)
  {
    hide DrawsEnd, ProofInv, OutcomeInv, ScoreInv, Finalize, EndCommitted, Reveals, LeaderboardScore, PeriodStart,
         RewardValue, SkillPlay, CardPlay;
    if !call.Submit? && !call.Claim? { FinalizeIsSafe(ctx, s, call.now); }
  }

  lemma {:induction false} EndedStaysForever(ctx: Ctx, s: Slice, calls: seq<Call>)
    requires DrawsEnd(ctx) && Inv(ctx, s) && s.session.status != Active
    ensures Settled(s, After(ctx, s, calls)) && Inv(ctx, After(ctx, s, calls))
    decreases |calls|
  {
    hide DrawsEnd, Inv, Execute;
    if calls != [] {
      EndedStays(ctx, s, calls[0]);
      CallIsSafe(ctx, s, calls[0]);
      EndedStaysForever(ctx, Execute(ctx, s, calls[0]).slice, calls[1..]);
    }
  }

  // ---------- revealed proofs verify forever ----------

  /** What `verify_fairness_proof` hands to the verifier. */
  function Published(ctx: Ctx, p: Proof, d: Disclosure): DailySpinProof
    requires ctx.config.DailySpinConfig?
  {
    DailySpinProof(p.versions, p.commitment, d.serverSeedHex, d.clientSeed, p.nonce, p.configVersionId, p.sessionId,
                   ctx.config.rewards, p.mappingDigest, d.rawDigestHex, d.normalizedValue, d.attempt, d.rewardKey, d.rewardValue)
  }

  lemma RevealedIsGenuine(ctx: Ctx, s: Slice)
    requires DrawsEnd(ctx) && Inv(ctx, s) && s.proof.Some? && s.proof.value.status == Revealed
    ensures ctx.config.DailySpinConfig? && s.proof.value.disclosure.Some?
    ensures var proof := Published(ctx, s.proof.value, s.proof.value.disclosure.value);
      && SpinProof.Genuine(ctx.crypto, proof)
      && (ValidInput(InputOf(proof)) ==> Ends(ctx.crypto, InputOf(proof)))
      && Expected(ctx.crypto, proof) == Verdict(true, "verified")
  {
    hide Chained, ValidInput, Ends, Derived, MappingDigest, Produced, RewardValue, OutcomeInv, ScoreInv;
    var p := s.proof.value;
    var seal := p.disclosure.value;
    var input := InputFor(ctx, p, s.custody.value, seal.clientSeed);
    var proof := Published(ctx, p, seal);
    DigestOf(ctx.crypto, input);
    assert proof == HonestProof(ctx.crypto, input);
    GenuineIff(ctx.crypto, proof);
  }

  lemma DigestOf(crypto: Crypto, input: SpinInput)
    requires ValidInput(input) && Ends(crypto, input)
    ensures Derived(crypto, input).mappingDigest == MappingDigest(crypto, input.bands)
  {
  }

  lemma ChainVerifies(ctx: Ctx, s: Slice)
    requires Inv(ctx, s) && s.proof.Some?
    ensures s.events != [] && Chained(ctx.hash, s.events) && AgreesWith(s.proof.value, s.events)
  {
    hide Chained, FactsOf, StatusInv, Bound;
  }

  /** Once revealed, a proof is verified at every later point of every run: the recomputed draw and the event
      chain both check, and the row and its events never change again. Chains of committed, expired and
      cancelled proofs verify as well. */
  lemma RevealedVerifiesForever(ctx: Ctx, start: Slice, calls: seq<Call>, more: seq<Call>)
    requires DrawsEnd(ctx) && Created(start)
    ensures var s := After(ctx, start, calls);
      var later := After(ctx, s, more);
      && (s.proof.Some? ==> s.events != [] && Chained(ctx.hash, s.events) && AgreesWith(s.proof.value, s.events))
      && (s.proof.Some? && s.proof.value.status == Revealed ==>
            && later.proof == s.proof && later.events == s.events
            && ctx.config.DailySpinConfig? && s.proof.value.disclosure.Some?
            && var proof := Published(ctx, later.proof.value, later.proof.value.disclosure.value);
               (ValidInput(InputOf(proof)) ==> Ends(ctx.crypto, InputOf(proof)))
               && Expected(ctx.crypto, proof) == Verdict(true, "verified"))
  {
    hide DrawsEnd, After, Published, Expected, AgreesWith, Chained, InputOf, ValidInput, Ends;
    CreatedIsInv(ctx, start);
    RunIsSafe(ctx, start, calls);
    var s := After(ctx, start, calls);
    if s.proof.Some? {
      ChainVerifies(ctx, s);
      if s.proof.value.status == Revealed {
        RevealedHasEnded(ctx, s);
        EndedStaysForever(ctx, s, more);
        RevealedIsGenuine(ctx, s);
      }
    }
  }

  lemma RevealedHasEnded(ctx: Ctx, s: Slice)
    requires Inv(ctx, s) && s.proof.Some? && s.proof.value.status == Revealed
    ensures s.session.status != Active
  {
    hide Evidenced, ChainOf, Bound;
  }

  // ---------- the draw is fixed when it is committed ----------

  /** Every call leaves a proof's facts alone, and its seed too unless it ends the proof for good. */
  ghost predicate Inherits(s: Slice, s': Slice) {
    && s.proof.Some? && s'.proof.Some? && s'.session.id == s.session.id
    && s'.proof.value.id == s.proof.value.id && FactsOf(s'.proof.value) == FactsOf(s.proof.value)
    && (Unrevealable(s.proof.value) ==> Unrevealable(s'.proof.value))
    && (!Unrevealable(s'.proof.value) ==> s'.custody == s.custody)
  }

  predicate Unrevealable(p: Proof) {
    p.status == ExpiredProof || p.status == CancelledProof
  }

  lemma CommittedIsInherited(ctx: Ctx, s: Slice, call: Call)
    requires DrawsEnd(ctx) && Inv(ctx, s) && s.proof.Some?
    ensures Inherits(s, Execute(ctx, s, call).slice)
  {
    hide DrawsEnd, Inv, Finalize, EndCommitted, NewEvent, LeaderboardScore, PeriodStart, RewardValue, SkillPlay,
         CardPlay, ValidInput, Derived, MappingDigest, FactsOf, SpinOutcome;
    FinalizeInherits(ctx, s, call.now);
    match call
    case Cancel(_, now) => CancelInherits(ctx, s, now);
    case Evaluate(_, now, _, clientSeed, outcomeId) => DrawInherits(ctx, s, s.proof.value, now, clientSeed, outcomeId);
    case _ =>
  }

  lemma DrawInherits(ctx: Ctx, s: Slice, p: Proof, now: int, clientSeed: seq<CodePoint>, outcomeId: Uuid)
    requires DrawsEnd(ctx) && s.proof == Some(p)
    ensures Inherits(s, Draw(ctx, s, p, now, clientSeed, outcomeId).slice)
  {
    hide DrawsEnd, ValidInput, Derived, NewEvent, SpinOutcome;
  }

  lemma CancelInherits(ctx: Ctx, s: Slice, now: int)
    requires s.proof.Some?
    ensures var ended := EndCommitted(ctx, s.(session := s.session.(status := Cancelled, endedAt := Some(now))), CancelledProof, now);
      ended.Some? ==> Inherits(s, ended.value)
  {
    hide NewEvent;
  }

  lemma FinalizeInherits(ctx: Ctx, s: Slice, now: int)
    requires Inv(ctx, s) && s.proof.Some?
    ensures var r := Finalize(ctx, s, now); r.Some? && Inherits(s, r.value.0) && (!r.value.1 ==> r.value.0 == s)
  {
    FinalizeIsSafe(ctx, s, now);
    hide Inv, NewEvent;
  }

  lemma {:induction false} RunInherits(ctx: Ctx, s: Slice, calls: seq<Call>)
    requires DrawsEnd(ctx) && Inv(ctx, s) && s.proof.Some?
    ensures Inherits(s, After(ctx, s, calls)) && Inv(ctx, After(ctx, s, calls))
    decreases |calls|
  {
    hide DrawsEnd, Inv, Execute, FactsOf;
    if calls != [] {
      CommittedIsInherited(ctx, s, calls[0]);
      CallIsSafe(ctx, s, calls[0]);
      RunInherits(ctx, Execute(ctx, s, calls[0]).slice, calls[1..]);
    }
  }

  /** From the commit on, nothing but the client's seed decides the draw: however two runs continue, if both
      reveal with the same client seed, they reveal the same evidence and the same reward. */
  lemma CommitFixesDraw(ctx: Ctx, start: Slice, calls: seq<Call>, one: seq<Call>, other: seq<Call>)
    requires DrawsEnd(ctx) && Created(start)
    ensures var s := After(ctx, start, calls);
      s.proof.Some? ==> SameDraw(After(ctx, s, one), After(ctx, s, other))
  {
    hide DrawsEnd, After, Inherits, Inv, SameDraw;
    CreatedIsInv(ctx, start);
    RunIsSafe(ctx, start, calls);
    var s := After(ctx, start, calls);
    if s.proof.Some? {
      RunInherits(ctx, s, one);
      RunInherits(ctx, s, other);
      SameSeedSameDraw(ctx, s, After(ctx, s, one), After(ctx, s, other));
    }
  }

  ghost predicate Discloses(s: Slice, clientSeed: seq<CodePoint>) {
    s.proof.Some? && s.proof.value.disclosure.Some? && s.proof.value.disclosure.value.clientSeed == clientSeed
  }

  /** If both disclose the same client seed, they have the same result and the same reward. */
  ghost predicate SameDraw(a: Slice, b: Slice) {
    forall clientSeed :: Discloses(a, clientSeed) && Discloses(b, clientSeed) ==>
      && a.outcome.Some? && b.outcome.Some? && a.outcome.value.result == b.outcome.value.result
      && a.reward.Some? && b.reward.Some? && a.reward.value.value == b.reward.value.value
  }

  lemma SameSeedSameDraw(ctx: Ctx, s: Slice, a: Slice, b: Slice)
    requires Inv(ctx, a) && Inv(ctx, b) && Inherits(s, a) && Inherits(s, b)
    ensures SameDraw(a, b)
  {
    hide ChainOf, OutcomeInv, ScoreInv, ValidInput, Ends, Derived, MappingDigest, ValidBands;
    var p, q := a.proof.value, b.proof.value;
    if p.disclosure.Some? && q.disclosure.Some? && p.disclosure.value.clientSeed == q.disclosure.value.clientSeed {
      assert p.status == Revealed && q.status == Revealed;
      assert a.custody == s.custody == b.custody;
      SameInput(ctx, p, q, a.custody.value, p.disclosure.value.clientSeed);
    }
  }

  lemma SameInput(ctx: Ctx, p: Proof, q: Proof, seed: seq<Byte>, clientSeed: seq<CodePoint>)
    requires ctx.config.DailySpinConfig? && FactsOf(p) == FactsOf(q)
    ensures InputFor(ctx, p, seed, clientSeed) == InputFor(ctx, q, seed, clientSeed)
  {
  }

  // ---------- retries and database errors ----------

  /** After a reveal, the same request is answered from the stored rows for ever, and a different one is a
      conflict; neither changes anything. */
  lemma EvaluationReplays(ctx: Ctx, start: Slice, calls: seq<Call>, owner: Uuid, now: int, clientSeed: seq<CodePoint>,
                          outcomeId: Uuid)
    requires DrawsEnd(ctx) && Created(start)
    ensures var s := After(ctx, start, calls);
      s.proof.Some? && s.proof.value.status == Revealed && s.proof.value.playerId == owner ==>
        && s.proof.value.disclosure.Some?
        && EvaluateFairness(ctx, s, owner, now, s.proof.value.id, clientSeed, outcomeId)
           == Step(s, if ctx.fingerprint(s.proof.value.id, clientSeed)
                         == ctx.fingerprint(s.proof.value.id, s.proof.value.disclosure.value.clientSeed)
                      then Replayed else Failed(IdempotencyConflict))
  {
    hide DrawsEnd, After, Draw, Finalize, Inv;
    CreatedIsInv(ctx, start);
    RunIsSafe(ctx, start, calls);
    var s := After(ctx, start, calls);
    if s.proof.Some? && s.proof.value.status == Revealed { RevealedRows(ctx, s, s.proof.value); }
  }

  lemma RevealedRows(ctx: Ctx, s: Slice, p: Proof)
    requires Inv(ctx, s) && s.proof == Some(p) && p.status == Revealed
    ensures s.outcome.Some? && s.reward.Some? && p.disclosure.Some?
    ensures p.disclosure.value.fingerprint == ctx.fingerprint(p.id, p.disclosure.value.clientSeed)
  {
    hide OutcomeInv, ScoreInv, ChainOf, ValidInput, Ends, Derived, ValidBands, MappingDigest, SpinOutcome;
  }

  /** Every value the configuration can award fits the leaderboard table. */
  predicate WithinBounds(config: Config) {
    match config
    case DailySpinConfig(_, rewards) => forall i | 0 <= i < |rewards| :: rewards[i].value <= Board.MAX_FINAL_SCORE
    case PredictionCardConfig(_, _, correctReward) => correctReward <= Board.MAX_FINAL_SCORE
    case SkillCheckConfig(_, _, maxScore) => maxScore <= Board.MAX_FINAL_SCORE
  }

  lemma {:induction false} BandValueBelow(bands: seq<RewardBand>, key: seq<CodePoint>, bound: int)
    requires BandValue(bands, key).Some? && forall i | 0 <= i < |bands| :: bands[i].value <= bound
    ensures BandValue(bands, key).value <= bound
  {
    if bands[0].key != key {
      assert forall i | 0 <= i < |bands[1..]| :: bands[1..][i] == bands[i + 1];
      BandValueBelow(bands[1..], key, bound);
    }
  }

  lemma RewardsWithinBounds(gameKey: string, config: Config, result: Result)
    requires WithinBounds(config) && RewardValue(gameKey, config, result).Some?
    ensures RewardValue(gameKey, config, result).value <= Board.MAX_FINAL_SCORE
  {
    if gameKey == DAILY_SPIN { BandValueBelow(config.rewards, result.rewardKey, Board.MAX_FINAL_SCORE); }
  }

  lemma CallFits(ctx: Ctx, s: Slice, call: Call)
    requires DrawsEnd(ctx) && Inv(ctx, s) && WithinBounds(ctx.config)
    ensures Execute(ctx, s, call).reply != Failed(Integrity)
  {
    hide DrawsEnd, Finalize, EndCommitted, Evidenced, Bound, Produced, RewardValue, LeaderboardScore, WithinBounds,
         PeriodStart, ValidInput, Derived, SkillPlay, CardPlay, Reveals;
    if call.Evaluate? && s.proof.Some? && s.proof.value.status == Committed {
      assert Sound(ctx.hash, s.events, 0);
    } else if call.Play? {
      PlayFits(ctx, s, call.intent, call.drawn, call.now);
    } else if call.Submit? && s.outcome.Some? {
      ProducedOutcomesScore(ctx.crypto, s.session.gameKey, ctx.config, s.outcome.value.result);
      RewardsWithinBounds(s.session.gameKey, ctx.config, s.outcome.value.result);
    }
  }

  lemma PlayFits(ctx: Ctx, s: Slice, intent: Intent, drawn: Uniform, now: int)
    requires WithinBounds(ctx.config)
    ensures var play := DirectPlay(ctx, s.session, intent, drawn, now);
      play.Evaluated? && RewardValue(s.session.gameKey, ctx.config, play.result).Some?
      ==> RewardValue(s.session.gameKey, ctx.config, play.result).value <= Board.MAX_FINAL_SCORE
  {
    hide RewardValue, WithinBounds, SkillPlay, CardPlay;
    var play := DirectPlay(ctx, s.session, intent, drawn, now);
    if play.Evaluated? && RewardValue(s.session.gameKey, ctx.config, play.result).Some? {
      RewardsWithinBounds(s.session.gameKey, ctx.config, play.result);
    }
  }

  // ---------- calls do what they are for ----------

  predicate Due(s: Slice, now: int) {
    s.session.status == Active && s.session.expiresAt <= now
  }

  lemma DueEnds(ctx: Ctx, s: Slice, call: Call)
    requires DrawsEnd(ctx) && Inv(ctx, s) && Due(s, call.now) && call.owner == s.session.playerId
    requires call.Commit? || call.Cancel? || call.Retrieve? || call.Play?
             || (call.Evaluate? && s.proof.Some? && s.proof.value.id == call.proofId)
    ensures var step := Execute(ctx, s, call);
      && step.slice.session == s.session.(status := Expired, endedAt := Some(call.now))
      && (step.reply == if call.Cancel? || call.Retrieve? then Done else Failed(SessionExpired))
      && (s.proof.Some? ==> step.slice.proof == Some(s.proof.value.(status := ExpiredProof)) && step.slice.custody.None?)
  {
    FinalizeIsSafe(ctx, s, call.now);
    DueProof(ctx, s, call.now);
    hide DrawsEnd, ProofInv, OutcomeInv, ScoreInv, Finalize, Draw;
  }

  lemma DueProof(ctx: Ctx, s: Slice, now: int)
    requires Inv(ctx, s) && Due(s, now)
    ensures s.proof.Some? ==>
      && s.proof.value.playerId == s.session.playerId && s.proof.value.status == Committed
      && Finalize(ctx, s, now).Some?
      && Finalize(ctx, s, now).value.0.proof == Some(s.proof.value.(status := ExpiredProof))
      && Finalize(ctx, s, now).value.0.custody.None?
  {
    hide NewEvent, FactsOf, Evidenced, MappingDigest, Chained;
  }

  lemma CommitWorks(ctx: Ctx, s: Slice, owner: Uuid, now: int, seed: ServerSeed, proofId: Uuid)
    requires Inv(ctx, s) && owner == s.session.playerId && s.session.status == Active && !Due(s, now) && s.proof.None?
    requires s.session.gameKey == DAILY_SPIN && ctx.config.DailySpinConfig? && ValidBands(ctx.config.rewards)
    ensures var step := CommitFairness(ctx, s, owner, now, seed, proofId);
      && step.reply == Done && step.slice.custody == Some(seed)
      && step.slice.proof.Some? && step.slice.proof.value.id == proofId && step.slice.proof.value.status == Committed
      && step.slice.proof.value.commitment == Commitment(ctx.crypto, seed)
  {
    FinalizeIsSafe(ctx, s, now);
    hide Inv, Finalize, ValidBands, MappingDigest, NewEvent, Commitment;
  }

  lemma EvaluateWorks(ctx: Ctx, s: Slice, now: int, clientSeed: seq<CodePoint>, outcomeId: Uuid)
    requires DrawsEnd(ctx) && Inv(ctx, s) && s.proof.Some? && s.proof.value.status == Committed && !Due(s, now)
    requires ValidClientSeed(clientSeed)
    ensures var step := EvaluateFairness(ctx, s, s.session.playerId, now, s.proof.value.id, clientSeed, outcomeId);
      && step.reply == Done && step.slice.session == s.session.(status := Completed, endedAt := Some(now))
      && step.slice.proof.Some? && step.slice.proof.value.status == Revealed && step.slice.proof.value.disclosure.Some?
      && step.slice.proof.value.disclosure.value.clientSeed == clientSeed
      && step.slice.reward.Some? && step.slice.reward.value.status == Issued
  {
    FinalizeIsSafe(ctx, s, now);
    BoundPlayer(ctx, s);
    DrawWorks(ctx, s, s.proof.value, now, clientSeed, outcomeId);
    hide Inv, Finalize, Draw, DrawsEnd, ValidClientSeed, Replay;
  }

  lemma BoundPlayer(ctx: Ctx, s: Slice)
    requires Inv(ctx, s) && s.proof.Some?
    ensures s.proof.value.playerId == s.session.playerId
  {
    hide ChainOf, StatusInv, OutcomeInv, ScoreInv, ValidBands;
  }

  lemma DrawWorks(ctx: Ctx, s: Slice, p: Proof, now: int, clientSeed: seq<CodePoint>, outcomeId: Uuid)
    requires DrawsEnd(ctx) && Inv(ctx, s) && s.proof == Some(p) && p.status == Committed
    requires ValidClientSeed(clientSeed)
    ensures var step := Draw(ctx, s, p, now, clientSeed, outcomeId);
      && step.reply == Done && step.slice.session == s.session.(status := Completed, endedAt := Some(now))
      && step.slice.proof.Some? && step.slice.proof.value.status == Revealed && step.slice.proof.value.disclosure.Some?
      && step.slice.proof.value.disclosure.value.clientSeed == clientSeed
      && step.slice.reward.Some? && step.slice.reward.value.status == Issued
  {
    OnlyTheFirstEvent(ctx, p, s.events);
    hide Chained, ChainOf, Evidenced, ValidBands, ValidClientSeed, Derived, MappingDigest, NewEvent, Commitment,
         ScoreInv, HasSecond, DrawsEnd, SpinOutcome, Produced, RewardValue;
    assert ValidInput(InputFor(ctx, p, s.custody.value, clientSeed));
  }

  lemma OnlyTheFirstEvent(ctx: Ctx, p: Proof, events: seq<Event>)
    requires ChainOf(ctx, p, events) && p.status == Committed
    ensures Latest(events).Some? && !HasSecond(events)
  {
    assert Sound(ctx.hash, events, 0);
  }

  lemma CancelWorks(ctx: Ctx, s: Slice, owner: Uuid, now: int)
    requires Inv(ctx, s) && owner == s.session.playerId && s.session.status == Active && !Due(s, now)
    ensures var step := CancelSession(ctx, s, owner, now);
      && step.reply == Done && step.slice.session == s.session.(status := Cancelled, endedAt := Some(now))
      && (s.proof.Some? ==> step.slice.proof == Some(s.proof.value.(status := CancelledProof)) && step.slice.custody.None?)
  {
    FinalizeIsSafe(ctx, s, now);
    hide Finalize, NewEvent, FactsOf, Evidenced, MappingDigest, Chained;
  }

  lemma SubmitWorks(ctx: Ctx, s: Slice, now: int, scoreId: Uuid)
    requires Inv(ctx, s) && s.session.status == Completed && s.score.None?
    ensures s.session.endedAt.Some? && s.reward.Some?
    ensures SubmitFinalScore(ctx, s, s.session.playerId, now, true, scoreId).reply == Done
       <==> now < PeriodStart(s.session.endedAt.value) + WEEK_US && Board.Storable(s.reward.value.value)
  {
    hide Inv, ProofInv, OutcomeInv, ScoreInv, LeaderboardScore, PeriodStart;
    ScoreIsReward(ctx, s);
  }

  lemma ScoreIsReward(ctx: Ctx, s: Slice)
    requires Inv(ctx, s) && s.session.status == Completed
    ensures s.session.endedAt.Some? && s.outcome.Some? && s.reward.Some? && KnownGame(s.session.gameKey)
    ensures LeaderboardScore(s.session.gameKey, ctx.config, s.outcome.value.result) == Some(s.reward.value.value)
  {
    ProducedOutcomesScore(ctx.crypto, s.session.gameKey, ctx.config, s.outcome.value.result);
    hide ProofInv, ScoreInv, Produced, RewardValue, LeaderboardScore;
  }

  lemma Reached(ctx: Ctx, start: Slice, calls: seq<Call>)
    requires DrawsEnd(ctx) && Created(start)
    ensures Inv(ctx, After(ctx, start, calls))
  {
    CreatedIsInv(ctx, start);
    RunIsSafe(ctx, start, calls);
  }

  /** Under a configuration within the table's bounds, no call violates a database constraint in any state that can
      be reached. */
  lemma NoIntegrityErrors(ctx: Ctx, start: Slice, calls: seq<Call>, call: Call)
    requires DrawsEnd(ctx) && Created(start) && WithinBounds(ctx.config)
    ensures Execute(ctx, After(ctx, start, calls), call).reply != Failed(Integrity)
  {
    hide DrawsEnd, Inv, Execute, After, WithinBounds;
    Reached(ctx, start, calls);
    CallFits(ctx, After(ctx, start, calls), call);
  }

  predicate MeetsDue(s: Slice, call: Call) {
    && Due(s, call.now) && call.owner == s.session.playerId
    && (call.Commit? || call.Cancel? || call.Retrieve? || call.Play?
        || (call.Evaluate? && s.proof.Some? && s.proof.value.id == call.proofId))
  }

  /** The first call of the owner that looks at an elapsed session ends it, and with it its committed proof and the
      seed; calls that wanted a running session report the expiry. */
  lemma DueSessionsEnd(ctx: Ctx, start: Slice, calls: seq<Call>, call: Call)
    requires DrawsEnd(ctx) && Created(start)
    ensures var s := After(ctx, start, calls);
      MeetsDue(s, call) ==>
        var step := Execute(ctx, s, call);
        && step.slice.session == s.session.(status := Expired, endedAt := Some(call.now))
        && (step.reply == if call.Cancel? || call.Retrieve? then Done else Failed(SessionExpired))
        && (s.proof.Some? ==> step.slice.proof == Some(s.proof.value.(status := ExpiredProof)) && step.slice.custody.None?)
  {
    hide DrawsEnd, Inv, Execute, After;
    Reached(ctx, start, calls);
    if MeetsDue(After(ctx, start, calls), call) { DueEnds(ctx, After(ctx, start, calls), call); }
  }

  /** A running daily spin with a valid map and no proof yet. */
  predicate CanCommit(ctx: Ctx, s: Slice, now: int) {
    && s.session.status == Active && !Due(s, now) && s.proof.None?
    && s.session.gameKey == DAILY_SPIN && ctx.config.DailySpinConfig? && ValidBands(ctx.config.rewards)
  }

  predicate CanEvaluate(s: Slice, now: int, clientSeed: seq<CodePoint>) {
    s.proof.Some? && s.proof.value.status == Committed && !Due(s, now) && ValidClientSeed(clientSeed)
  }

  /** In every reachable state the owner's commit, evaluation and cancellation do their work whenever the session
      is running, and nothing else stands in the way. */
  lemma RunningSessionsAdvance(ctx: Ctx, start: Slice, calls: seq<Call>, now: int, seed: ServerSeed,
                               clientSeed: seq<CodePoint>, id: Uuid)
    requires DrawsEnd(ctx) && Created(start)
    ensures var s := After(ctx, start, calls);
      && (CanCommit(ctx, s, now) ==>
            var step := CommitFairness(ctx, s, s.session.playerId, now, seed, id);
            && step.reply == Done && step.slice.custody == Some(seed)
            && step.slice.proof.Some? && step.slice.proof.value.id == id && step.slice.proof.value.status == Committed
            && step.slice.proof.value.commitment == Commitment(ctx.crypto, seed))
      && (CanEvaluate(s, now, clientSeed) ==>
            var step := EvaluateFairness(ctx, s, s.session.playerId, now, s.proof.value.id, clientSeed, id);
            && step.reply == Done && step.slice.session == s.session.(status := Completed, endedAt := Some(now))
            && step.slice.proof.Some? && step.slice.proof.value.status == Revealed && step.slice.proof.value.disclosure.Some?
            && step.slice.proof.value.disclosure.value.clientSeed == clientSeed
            && step.slice.reward.Some? && step.slice.reward.value.status == Issued)
      && (s.session.status == Active && !Due(s, now) ==>
            var step := CancelSession(ctx, s, s.session.playerId, now);
            && step.reply == Done && step.slice.session == s.session.(status := Cancelled, endedAt := Some(now))
            && (s.proof.Some? ==> step.slice.proof == Some(s.proof.value.(status := CancelledProof)) && step.slice.custody.None?))
  {
    hide DrawsEnd, Inv, After, CommitFairness, EvaluateFairness, CancelSession, ValidBands, ValidClientSeed,
         Commitment;
    Reached(ctx, start, calls);
    var s := After(ctx, start, calls);
    if CanCommit(ctx, s, now) { CommitWorks(ctx, s, s.session.playerId, now, seed, id); }
    if CanEvaluate(s, now, clientSeed) { EvaluateWorks(ctx, s, now, clientSeed, id); }
    if s.session.status == Active && !Due(s, now) { CancelWorks(ctx, s, s.session.playerId, now); }
  }

  /** What a direct play of a running session comes to, if the game's rules accept it. */
  function Accepts(ctx: Ctx, s: Slice, intent: Intent, drawn: Uniform, now: int): Option<Result> {
    if s.session.status != Active || Due(s, now) || !KnownGame(s.session.gameKey) || FairnessGame(s.session.gameKey) then None
    else match DirectPlay(ctx, s.session, intent, drawn, now) case Evaluated(result) => Some(result) case _ => None
  }

  /** The play is accepted and its reward fits the 32-bit column. */
  predicate PaysOut(ctx: Ctx, s: Slice, intent: Intent, drawn: Uniform, now: int) {
    match Accepts(ctx, s, intent, drawn, now)
    case None => false
    case Some(result) =>
      var value := RewardValue(s.session.gameKey, ctx.config, result);
      value.Some? && value.value <= MAX_REWARD_VALUE
  }

  /** In every reachable state an accepted play completes the session with its outcome and an issued reward, unless the
      reward does not fit the column; a fairness game is never played directly. */
  lemma DirectPlayCompletes(ctx: Ctx, start: Slice, calls: seq<Call>, now: int, intent: Intent, drawn: Uniform,
                            id: Uuid)
    requires DrawsEnd(ctx) && Created(start)
    ensures var s := After(ctx, start, calls);
      var step := PlaySession(ctx, s, s.session.playerId, now, intent, drawn, id);
      && (step.reply == Done <==> PaysOut(ctx, s, intent, drawn, now))
      && (step.reply == Done ==>
            && step.slice.session == s.session.(status := Completed, endedAt := Some(now))
            && step.slice.outcome == Some(Outcome(id, Accepts(ctx, s, intent, drawn, now).value))
            && step.slice.reward.Some? && step.slice.reward.value.status == Issued && step.slice.reward.value.outcomeId == id)
      && (s.session.status == Active && !Due(s, now) && FairnessGame(s.session.gameKey) ==> step == Refuse(s, FairnessRequired))
  {
    hide DrawsEnd, After, Inv, Finalize, DirectPlay, RewardValue, RetryMatches;
    Reached(ctx, start, calls);
    var s := After(ctx, start, calls);
    FinalizeIsSafe(ctx, s, now);
    NoOutcomeYet(ctx, s);
  }

  lemma NoOutcomeYet(ctx: Ctx, s: Slice)
    requires Inv(ctx, s)
    ensures s.session.status != Completed ==> s.outcome.None? && s.reward.None?
  {
    hide ProofInv, ScoreInv, Produced, RewardValue;
  }

  /** A replayed prediction is answered from the stored outcome exactly if the choice is the same; every other game
      refuses a second play. Nothing changes. */
  lemma PlayReplays(ctx: Ctx, start: Slice, calls: seq<Call>, now: int, intent: Intent, drawn: Uniform, id: Uuid)
    requires DrawsEnd(ctx) && Created(start)
    ensures var s := After(ctx, start, calls);
      s.session.status == Completed ==>
        && s.outcome.Some? && (s.session.gameKey == PREDICTION_CARD ==> s.outcome.value.result.CardResult?)
        && PlaySession(ctx, s, s.session.playerId, now, intent, drawn, id)
           == Step(s, if s.session.gameKey != PREDICTION_CARD then Failed(InvalidTransition)
                      else if intent == Intent(Some(s.outcome.value.result.playerChoice), None) then Replayed
                      else Failed(IdempotencyConflict))
  {
    hide DrawsEnd, After, Inv, Finalize;
    Reached(ctx, start, calls);
    var s := After(ctx, start, calls);
    FinalizeIsSafe(ctx, s, now);
    if s.session.status == Completed { CardOutcome(ctx, s); }
  }

  lemma CardOutcome(ctx: Ctx, s: Slice)
    requires Inv(ctx, s) && s.session.status == Completed
    ensures s.outcome.Some? && KnownGame(s.session.gameKey)
    ensures s.session.gameKey == PREDICTION_CARD ==> s.outcome.value.result.CardResult?
  {
    hide ProofInv, ScoreInv, RewardValue, SkillPlay, Ends, Derived, ValidInput;
  }

  /** In every reachable state a completed session enters its score exactly if its week is still open and the table
      can hold the value. */
  lemma SubmitSucceedsIff(ctx: Ctx, start: Slice, calls: seq<Call>, now: int, scoreId: Uuid)
    requires DrawsEnd(ctx) && Created(start)
    ensures var s := After(ctx, start, calls);
      s.session.status == Completed && s.score.None? ==>
        && s.session.endedAt.Some? && s.reward.Some?
        && (SubmitFinalScore(ctx, s, s.session.playerId, now, true, scoreId).reply == Done
            <==> now < PeriodStart(s.session.endedAt.value) + WEEK_US && Board.Storable(s.reward.value.value))
  {
    hide DrawsEnd, Inv, After, SubmitFinalScore, PeriodStart;
    Reached(ctx, start, calls);
    var s := After(ctx, start, calls);
    if s.session.status == Completed && s.score.None? { SubmitWorks(ctx, s, now, scoreId); }
  }

  // ---------- claims ----------

  /** The `i`-th call claims the reward. */
  ghost predicate Claims(ctx: Ctx, start: Slice, calls: seq<Call>, i: nat)
    requires DrawsEnd(ctx)
  {
    i < |calls| && calls[i].Claim? && Execute(ctx, After(ctx, start, calls[..i]), calls[i]).reply == Done
  }

  lemma {:induction false} AfterLast(ctx: Ctx, s: Slice, calls: seq<Call>)
    requires DrawsEnd(ctx) && calls != []
    ensures var n := |calls| - 1; After(ctx, s, calls) == Execute(ctx, After(ctx, s, calls[..n]), calls[n]).slice
    decreases |calls|
  {
    hide DrawsEnd, Execute;
    var n := |calls| - 1;
    if n > 0 {
      AfterLast(ctx, Execute(ctx, s, calls[0]).slice, calls[1..]);
      assert calls[..n][1..] == calls[1..][..n - 1];
    } else {
      assert calls[1..] == [];
    }
  }

  /** A reward turns claimed by a claim that is answered Done, and by nothing else. */
  lemma CallClaims(ctx: Ctx, s: Slice, call: Call)
    requires DrawsEnd(ctx) && Inv(ctx, s)
    ensures var step := Execute(ctx, s, call);
      var claims := call.Claim? && step.reply == Done;
      && (IsClaimed(s) ==> !claims && step.slice.reward == s.reward)
      && (!IsClaimed(s) ==> (IsClaimed(step.slice) <==> claims))
      && (claims ==> step.slice.reward.value.claimedAt == Some(call.now))
  {
    hide DrawsEnd, CommitFairness, EvaluateFairness, CancelSession, RetrieveSession, PlaySession, SubmitFinalScore,
         Inv;
    if IsClaimed(s) {
      CompletedHasEnded(ctx, s);
      EndedStays(ctx, s, call);
    } else if !call.Claim? {
      OnlyClaimsClaim(ctx, s, call);
    }
  }

  lemma OnlyClaimsClaim(ctx: Ctx, s: Slice, call: Call)
    requires DrawsEnd(ctx) && !call.Claim? && !IsClaimed(s)
    ensures !IsClaimed(Execute(ctx, s, call).slice)
  {
    hide DrawsEnd, Finalize, EndCommitted, DirectPlay, RewardValue, LeaderboardScore, PeriodStart, RetryMatches,
         ValidBands, NewEvent, MappingDigest, Draw, Replay;
    FinalizeKeepsReward(ctx, s, call.now);
    match call
    case Cancel(_, now) =>
      EndingKeepsReward(ctx, s.(session := s.session.(status := Cancelled, endedAt := Some(now))), CancelledProof, now);
    case Evaluate(_, now, _, clientSeed, outcomeId) =>
      if s.proof.Some? { DrawsAreIssued(ctx, s, s.proof.value, now, clientSeed, outcomeId); }
    case _ =>
  }

  lemma DrawsAreIssued(ctx: Ctx, s: Slice, p: Proof, now: int, clientSeed: seq<CodePoint>, outcomeId: Uuid)
    requires DrawsEnd(ctx) && !IsClaimed(s)
    ensures !IsClaimed(Draw(ctx, s, p, now, clientSeed, outcomeId).slice)
    ensures Replay(ctx, s, p, clientSeed).slice == s
  {
    hide DrawsEnd, ValidInput, Derived, NewEvent, SpinOutcome;
  }

  lemma CompletedHasEnded(ctx: Ctx, s: Slice)
    requires Inv(ctx, s) && s.reward.Some?
    ensures s.session.status != Active
  {
    hide ProofInv, ScoreInv, Produced, RewardValue;
  }

  lemma EndingKeepsReward(ctx: Ctx, s: Slice, status: ProofStatus, now: int)
    ensures var ended := EndCommitted(ctx, s, status, now); ended.Some? ==> ended.value.reward == s.reward
  {
    hide NewEvent, FactsOf;
  }

  lemma FinalizeKeepsReward(ctx: Ctx, s: Slice, now: int)
    ensures var r := Finalize(ctx, s, now); r.Some? ==> r.value.0.reward == s.reward
  {
    hide EndCommitted;
    EndingKeepsReward(ctx, s.(session := ExpireIfDue(s.session, now)), ExpiredProof, now);
  }

  /** In every run the reward is claimed at the end exactly if some call claimed it; no two calls claim it, and its
      time of claiming is that call's, whatever came after. */
  lemma {:induction false} ClaimIsOnce(ctx: Ctx, start: Slice, calls: seq<Call>)
    requires DrawsEnd(ctx) && Created(start)
    ensures var s := After(ctx, start, calls);
      && (IsClaimed(s) <==> exists i: nat :: Claims(ctx, start, calls, i))
      && (forall i: nat :: Claims(ctx, start, calls, i) ==> IsClaimed(s) && s.reward.value.claimedAt == Some(calls[i].now))
      && (forall i: nat, j: nat :: Claims(ctx, start, calls, i) && Claims(ctx, start, calls, j) ==> i == j)
    decreases |calls|
  {
    hide DrawsEnd, Execute, Inv;
    if calls != [] {
      var n := |calls| - 1;
      var earlier := calls[..n];
      AfterLast(ctx, start, calls);
      Reached(ctx, start, earlier);
      ClaimIsOnce(ctx, start, earlier);
      CallClaims(ctx, After(ctx, start, earlier), calls[n]);
      forall i: nat | i < n ensures Claims(ctx, start, calls, i) == Claims(ctx, start, earlier, i) {
        assert calls[..i] == earlier[..i];
      }
      if IsClaimed(After(ctx, start, calls)) {
        if IsClaimed(After(ctx, start, earlier)) {
          var i: nat :| Claims(ctx, start, earlier, i);
          assert Claims(ctx, start, calls, i);
        } else {
          assert Claims(ctx, start, calls, n);
        }
      }
    }
  }
}
