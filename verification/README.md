# A verified model of the game platform's core

This project models, in Dafny, the parts of the platform whose correctness depends on several functions, tables or
processes at once, and proves what they promise.

* **The leaderboard cache** (`Sorting`, `Text`, `Board`, `Integrity`, `Projection`, `CacheProtocol`, `CacheSafety`,
  `ReaderChecks`, `RebuildSafety`, `RankSafety`, `CacheProgress`, `Rebuilding`). Score inserts with their revision
  trigger, any number of rebuilds, one reader and an intruder who overwrites Redis are interleaved one SQL statement
  or Redis command at a time. The main theorem: a page served from Redis is the canonical slice of the score table at
  the instant the reader counted it, with an exact `has_more`, in every interleaving and for any garbage in Redis that
  carries no forged signature; every column of every row is that of its entry. Its partner says that an undisturbed
  page or rank request that meets an up-to-date generation is answered from Redis. Below them lie the order theorem
  (Redis score-then-text order is the SQL order), printer/parser round trips, window-query ranks and the two
  pagination walks.
* **The commit/reveal lifecycle** (`FairnessEvents`, `GameRules`, `Lifecycle`, `LifecycleSafety`, `LifecycleRows`,
  `SessionService`, `ConfigHistory`, `Transactions`, `Sessions`, `SessionSafety`, `Settlement`, `Season`,
  `LateScores`). Session, proof, seed custody, event chain, outcome, reward and score are one state machine, once with
  atomic calls and once statement by statement with row locks; what each call writes is stated column by column, and
  every refusal with the check that causes it; updates of the configuration it is pinned to, session creation,
  settlement and submission over time are modelled beside it.
* **Provably-fair arithmetic and encodings** (`Bytes`, `Rng`, `Encoding`, `SpinProof`). Rejection sampling over
  256-bit values, weighted selection, length-prefixed byte formats with readers that undo them, and the verifier.
* **The event hub** (`EventHub`): bounded keep-newest queues with a shutdown sentinel.

Code that updates state in place is a class (`ScoreTable`, `RedisServer`, `RebuildProcess`, `SessionRecords`,
`SessionTable`, `SettlementRun`, the hub and its subscriptions) or a method with a loop; each is proved equal to a
step function, and the theorems over all runs are proved about those functions.

## Conventions and assumptions

* SHA-256, HMAC, the event hash, the request fingerprint, `int(text)` and `UUID(text)` are function values that a
  theorem takes as arguments. Theorems about SHA-256, HMAC draws and event hashes assume nothing of them and name the
  collision that would be needed instead (`MapClash`, `DrawClash`, `Collide`). Only the cache lemmas assume that no
  two payloads share a signature (`CollisionFree`; signatures are texts of any length in the model). The parsers'
  reading back what was printed (`ReadsBack`) and "some attempt is accepted" (`Ends`, `DrawsEnd`) are hypotheses of
  just the lemmas that need them. The key identifier is arbitrary, so clashes of identifiers are part of the model.
* `NoForgery`: whatever the intruder leaves in Redis verifies only if a rebuild signed exactly that payload.
  Generation ids are fresh.
* Times are integers in microseconds. `int(completed_at.timestamp() * 1_000_000)` goes through a float in the source;
  the model takes the conversion to be exact, as it does for the milliseconds of `elapsed_ms`. Completion times that
  reach Redis lie in 0 .. 10^20-1 microseconds.
* `created_at` is a database default and `now` the application's clock; the model has one clock that never runs
  backwards.
* Each SQL statement sees its own snapshot (READ COMMITTED). Row locks last to the end of the transaction. A call that
  raises rolls back, except where an expiry is committed before `SessionExpiredError`.
* JSON event hashing and fingerprints act on records; a version 1 event hash leaves the payload out and prints an
  absent link as empty text, as the source does.
* A `varchar(40)` column refuses a longer text unless only blanks lie beyond its width, which are cut off (section 8.3
  of the PostgreSQL documentation).
* A revealed proof keeps its seed custody; only expiry and cancellation delete it. The columns that a revealed proof
  fills are one optional record, since a CHECK constraint allows them only together.

## Where the code does less than it seems to

* `TieSkipsCooldown` and `CooldownsSeparateIff`: sessions of a player and game are kept apart by the earlier one's
  pinned cooldown in every run exactly when the game's configurations do not mix zero and positive cooldowns. With a
  mix, two sessions created in the same microsecond are ordered by id, and the later one's cooldown can go unchecked.
  (The daily spin's schema demands a minute at least; the other two games allow zero.)
* `SettlingIsExact`, `SettlingSucceedsIff`, `OversizedTierNeverSettles`: the tier list is free JSON. The loop checks
  types and signs only, so a value beyond 32 bits or a key of more than 40 characters fails at the insert, and the
  week stays unsettled. Settling succeeds exactly when no rank on the list falls to a malformed or too wide tier.
* `SettledMissesTheLate`, `LateScoreIsMissed`: `submit_final_score` checks the clock before it commits and does not
  take the lock that settlement takes. A settled week lacks exactly the scores that were checked before its end and
  committed after its settlement had read the list.
* `ConfigWithinBound`, `SubmitSucceedsIff`: score extraction never fails on an outcome the code produced, but the
  score table holds at most 1,000,000; a configuration beyond it makes `submit_final_score` fail.
* `VerifiesUnlessAltered`, `DigestGuardsEvaluation`, `PublishedRowsKeepProofs`, `RewriteBreaksProof`: the trigger
  protects published configurations only, and a retired one can be rewritten. In every run of calls and updates a
  revealed proof verifies exactly when the payload holds the map of the commit and of the evaluation, up to a hash
  collision. A rewrite between the two makes the evaluation reveal a proof that never verified; comparing the digest
  of the payload's map with the committed one before evaluating tells exactly when. If no update meets a retired row
  or a draft, every revealed proof verifies.
* `PublishedOnlyRetires`: the trigger compares times of publication with `=`, which is not false for NULL, so the
  update that retires a published row can also erase its time of publication.
* `SignedPaddedOrder`: for negative times the zero-padded text sorts correctly exactly when the later time is not
  negative.
* `Rotation`: after a rotation new signatures resolve exactly when the two secrets have different identifiers or are
  the same secret.
* `V1IgnoresPayload`, `LastHashFixesChain`: a version 1 event does not protect its payload. The last hash of a
  verified chain pins the chain exactly when all its events are of version 2, up to a hash collision.
* `LostAnswerDangles`, `NamedGenerationIsIntactOrGone`: a pointer can name a generation that is gone, exactly when
  that generation's own rebuild failed and its clean-up reached Redis (after an EXEC whose answer was lost, or a
  failure after that, up to an interruption while the previous generation is being retired).
* `RankIsAnOwnEntry`: the hash that maps players to members is not signed, so with an intruder a rank from Redis can
  be that of a lesser entry of the player; it is the player's rank exactly when no entry of the player stands above
  it.
* `hmac.compare_digest` raises TypeError on text that is not ASCII, which the verifier does not catch (`Crash`);
  `VerifyDailySpinProof` states exactly which proofs do that (`Crashes`).

## Model

| member | source | states |
|---|---|---|
| Text.PaddedOrder | app/redis_cache/integrity.py:121-137 | twenty-digit text sorts as the number does, for every time below 10^20 |
| Text.SignedPaddedOrder | app/redis_cache/integrity.py:121-137 | with negative times the text of m sorts before the text of a greater n exactly when n is not negative |
| Text.UuidTextOrder | app/persistence/leaderboards.py:19-24 | canonical UUID text sorts as PostgreSQL compares the 16 bytes |
| Board.CanonicalSorts | app/persistence/leaderboards.py:104-113 | the canonical list holds every score once, in ranking order |
| Board.KeysetContinues | app/persistence/leaderboards.py:88-103 | the `after` filter of an entry leaves exactly the entries behind it |
| Board.OffsetWalkListsTheBoard | app/leaderboard_projection.py:156-160 | following `next_cursor` from offset 0 yields the whole canonical list, once and in order, and ends |
| Board.KeysetWalkIsComplete | app/persistence/leaderboards.py:76-113 | following `after` cursors yields every entry not yet seen, once and in order, and ends |
| Board.RowNumberIsRank | app/persistence/leaderboards.py:179-194 | the window row number of an entry is its canonical position plus one |
| Board.SettlementIsFirstPerPlayer | app/persistence/leaderboards.py:116-144 | the settlement list is the canonical list with only each player's first entry kept |
| Board.SettlementPlayersUnique | app/persistence/leaderboards.py:116-144 | the settlement list names every player of the board exactly once |
| Board.PlayerRankIsFirstEntry | app/persistence/leaderboards.py:172-206 | a player's canonical rank is the position of the player's first canonical entry plus one |
| Board.UnrankedIsAbsent | app/persistence/leaderboards.py:195-206 | a player has no rank exactly when the player has no entry |
| Integrity.Rotation | app/redis_cache/integrity.py:21-32 | after rotating to a new secret the old one still resolves; the new one does exactly when the identifiers differ or the secrets are equal |
| Integrity.MetadataVerifies | app/redis_cache/integrity.py:42-106 | published metadata verifies against its own scope, generation, revision and count, if its encoding is v2, and against no other expectation |
| Integrity.AcceptedMetadata | app/redis_cache/integrity.py:57-106 | metadata is accepted exactly if it has the eight fields, says what is expected, in encoding v2, and is signed over all of them by the secret that its key identifier stands for |
| Integrity.MemberRoundTrip | app/redis_cache/integrity.py:108-180 | `parse_member` returns exactly the fields given to `member`, as long as the reader's keys resolve the signer |
| Integrity.AcceptedMember | app/redis_cache/integrity.py:139-180 | a member is accepted as a row exactly if its six fields spell the row, with padded numbers, a rank from one on and the score that belongs to it, and the signature covers every field of row and contract |
| Integrity.MemberIsText | app/redis_cache/integrity.py:108-137 | the member is completion time, session, score, player, rank and signature, in this order, joined by colons |
| Integrity.MemberSaysWhatWasSigned | app/redis_cache/integrity.py:139-180 | a genuine member, parsed under any contract and with any score, yields only the row that was signed into it |
| Projection.MemberOrder | tools/rebuild_leaderboard.py:50-70 | Redis order over two encoded members is the ranking order of their scores |
| Projection.EncodedIsSorted | tools/rebuild_leaderboard.py:113-120 | an encoded canonical board is already in Redis order |
| Projection.ReadBackPasses | tools/rebuild_leaderboard.py:140-143 | listing what a rebuild wrote, untouched, gives back the encoded list, so the read-back check passes |
| Projection.CheckPage | app/redis_cache/projections.py:99-109 | the checked loop accepts a page exactly if it has the expected length and every member is genuine at its rank |
| CacheSafety.StepIsSafe | tools/rebuild_leaderboard.py:97-165 | every insert, rebuild statement, read, key expiry and overwriting of Redis keeps the invariant of the protocol |
| CacheSafety.AcceptedPageIsCanonical | app/redis_cache/projections.py:95-109 | an accepted page is the canonical slice of the board the trusted generation was built from |
| CacheSafety.VerifiedIsVouched | app/redis_cache/projections.py:34-65 | metadata that passes belongs to a rebuild that read exactly as many rows as the reader counted |
| CacheSafety.BoardsAreValid | tools/rebuild_leaderboard.py:99-101 | in every run the rows of each scope satisfy the table's constraints, so a rebuild's read of the scores and a reader's fallback are never held back |
| CacheSafety.PageIsCanonicalAtOneInstant | app/leaderboard_projection.py:99-160 | in every interleaving, and for any unforged Redis contents, a served page is canonical at one instant: row i has score id, session, player, points and completion time of the entry at offset + i, and rank offset + i + 1; as many rows as there are up to the limit, and an exact `has_more`. From Redis the instant is that of the count; after falling back, also from Redis rows whose entries could not be built, that later read |
| ReaderChecks.AnswersWereChecked | app/redis_cache/projections.py:34-65 | in every run a page or rank is taken from Redis only after looks, one after the other, at the revision, the Redis pointer, the metadata of the generation that it spells and the number of members; the metadata is signed for exactly that revision and the counted rows, and the members are as many |
| ReaderChecks.RankStandsThere | app/redis_cache/projections.py:128-154 | a rank is taken only from a genuine member of the player asked for that stands at that very place of the sorted set |
| ReaderChecks.PublishedSays | tools/rebuild_leaderboard.py:101-138 | on an unused generation id the published metadata vouches for exactly the scope, the generation, the revision read and the number of scores written |
| ReaderChecks.RebuildTouches | tools/rebuild_leaderboard.py:113-165 | publishing touches the three keys of the generation and the pointer of its scope, retiring the expiry of the other generation that the Redis pointer spelled, a clean-up the three keys but never the pointer |
| ReaderChecks.RebuildBegan | tools/rebuild_leaderboard.py:94-98 | in every run the generation that a rebuild goes on to retire is the one that the Redis pointer held when it began |
| RebuildSafety.RebuildStepIsOrderly | tools/rebuild_leaderboard.py:97-165 | every rebuild statement keeps the order between pointers, superseded generations and expiring keys |
| RebuildSafety.StaleIsSuperseded | tools/rebuild_leaderboard.py:145-160 | the generation a rebuild sets to expire is one that the pointer has left for good |
| RebuildSafety.NamedGenerationIsIntactOrGone | tools/rebuild_leaderboard.py:94-165 | without an intruder, the generation a pointer names is never set to expire, is there exactly as written or not at all, and is gone exactly if its own rebuild failed and deleted it |
| RebuildSafety.LostAnswerDangles | tools/rebuild_leaderboard.py:122-165 | any run without an intruder in which a rebuild is about to publish can go on so that the EXEC takes effect, its answer is lost, the clean-up goes through and the Redis pointer is left naming the deleted generation |
| RebuildSafety.RedisRankIsCanonical | app/redis_cache/projections.py:114-154 | without an intruder, a rank taken from Redis is the player's canonical rank at the instant of the count, with every column of the player's first entry |
| RankSafety.RankIsAnOwnEntry | app/redis_cache/projections.py:136-152 | in every run, also with an intruder, a rank taken from Redis shows, column by column, one of the player's entries at its true place on the counted board, and is the player's rank exactly if no other entry of the player stands above it |
| CacheProgress.UpToDateGenerationServes | app/redis_cache/projections.py:34-111 | an undisturbed page request that meets a generation built from the rows of now, and not deleted by its own rebuild, is served from Redis at every offset and limit |
| CacheProgress.UpToDateGenerationRanks | app/redis_cache/projections.py:114-154 | an undisturbed rank request, from its first statement on, gets from such a generation the player's canonical rank, and none exactly if the player has no entry |
| Rebuilding.ScoreTable.Insert | alembic/versions/0013_leaderboard_projection_revisions.py:47-71 | an insert succeeds exactly if the score meets the CHECK and its session and id are new in the whole table; it adds the row and advances the revision by one |
| Rebuilding.ScoreTable.Backfill | alembic/versions/0013_leaderboard_projection_revisions.py:38-46 | the migration makes every revision equal to the number of rows |
| Rebuilding.RebuildProcess.TakeScores | tools/rebuild_leaderboard.py:99-101 | the scores are the canonical list of the rows committed at that statement |
| Rebuilding.RebuildProcess.Collect | tools/rebuild_leaderboard.py:117-120 | the dictionaries map every member to its score and every player to its first member |
| Rebuilding.RebuildProcess.PublishGeneration | tools/rebuild_leaderboard.py:113-138 | members, players, signed metadata and pointer are written at once, merged into what the keys hold |
| Rebuilding.RebuildProcess.CheckGeneration | tools/rebuild_leaderboard.py:140-143 | the rebuild goes on exactly if Redis lists the encoded members in order |
| Rebuilding.RebuildProcess.RetirePrevious | tools/rebuild_leaderboard.py:145-161 | only a previous generation with a readable id other than the new one is set to expire; a Redis failure leaves it |
| Rebuilding.RebuildProcess.CleanUp | tools/rebuild_leaderboard.py:163-165 | a failure deletes the three keys of the generation and leaves the pointer |
| Rebuilding.RebuildLeaderboard | tools/rebuild_leaderboard.py:73-165 | alone and on an unused generation id a rebuild succeeds, counts all rows and leaves the generation written and the previous one expiring |
| Rng.ValidateRewardBands | app/rng.py:393-424 | a map is accepted exactly if it is non-empty with unique encodable keys, weights and values in range and a total within 63 bits |
| Rng.ValidBandsInFull | app/rng.py:393-424 | the bounds of a valid map written out: weights from 1, single and in sum, up to 2^63 - 1, values from 0 to 2^31 - 1, distinct encodable keys that are not empty |
| Rng.SelectDailySpinReward | app/rng.py:300-318 | the band returned is the one whose weight interval holds the normalized value; anything else is an error |
| Rng.OwnerIsUnique | app/rng.py:313-317 | a normalized value belongs to one band only |
| Rng.DrawIsFair | app/rng.py:272-297 | of all digests exactly weight * (limit / total) select a band, and fewer than the total weight are rejected |
| Bytes.Utf8RoundTrip | app/rng.py:196-197 | UTF-8 encoding of keys loses nothing |
| Bytes.DigestRoundTrip | app/rng.py:286 | digests and the numbers below 2^256 correspond one to one |
| Encoding.MappingRoundTrip | app/rng.py:188-205 | a reader of the map format gives back every valid map, also with newlines or digits in keys |
| Encoding.MappingInjective | app/rng.py:188-205 | two valid maps with the same bytes are the same map |
| Encoding.MappingIsText | app/rng.py:188-205 | the bytes that are hashed for a map, line by line, with every name and separator |
| Encoding.MessageRead | app/rng.py:208-244 | a reader of the derivation message gives back every field |
| Encoding.MessageInjective | app/rng.py:208-244 | the message determines client seed, nonce, configuration, session, mapping digest and attempt |
| Encoding.MessageIsText | app/rng.py:208-244 | the bytes that are signed for a draw, line by line, with every name, version and separator |
| SpinProof.DeriveDailySpin | app/rng.py:247-297 | the first failing check names the error, and a draw is made exactly for the inputs within the protocol's bounds; its digest is the HMAC, keyed by the server seed, of a message from which every input can be read under its own name, for the first attempt below the limit; value and reward follow from the digest |
| SpinProof.DerivedIsDrawn | app/rng.py:272-297 | what a valid input yields shows the digest of its map, the first digest below the limit, its remainder, and the band whose weights hold the remainder |
| SpinProof.VerifyDailySpinProof | app/rng.py:321-363 | a proof is accepted exactly if every evidence field is what its own inputs yield, and then some seed with the published commitment backs it; each failure has the code of its first failing check; exactly the proofs described by `Crashes` raise a TypeError |
| SpinProof.EarlyCodes | app/rng.py:321-352 | the code of each check before the draw is given when that check is the first to fail |
| SpinProof.EvidenceCodes | app/rng.py:353-363 | the code of each comparison of evidence is given when that comparison is the first to fail |
| SpinProof.CommitmentFixesReward | app/rng.py:175-179 | two accepted proofs with the same commitment and public inputs are the same proof, reward included, unless their seeds are a collision of SHA-256 |
| SpinProof.UniformBelow | app/rng.py:46-65 | the bounded integer comes from the least accepted four-byte counter, or the counter overflows after rejecting all of them |
| SpinProof.UniformIsFair | app/rng.py:58-65 | every result below the bound is given by equally many accepted digests |
| FairnessEvents.VerifyFairnessEventChain | app/services/fairness.py:361-404 | a chain verifies exactly if all links and hashes hold and its ends agree with the proof; the code names the first failure |
| FairnessEvents.LinkCodes | app/services/fairness.py:370-385 | the code of each check of a link, position, version or hash, is given when that check is the first to fail |
| FairnessEvents.ClosingCodes | app/services/fairness.py:386-404 | a chain agrees with its proof exactly if the first event repeats the proof's columns and the last event of a revealed proof reveals it with all its evidence; each code is given when that check is the first to fail |
| FairnessEvents.LastHashFixesChain | app/fairness_events.py:35-57 | a verified chain is the only one with its last hash exactly if all its events are of version 2, up to a collision of the hash |
| FairnessEvents.V1IgnoresPayload | app/fairness_events.py:11-32 | changing the payload of a version 1 event leaves the chain verified and its agreement with any proof as it was |
| FairnessEvents.ChainGrows | app/services/session_termination.py:34-62 | appending an event that names the last hash keeps a chain verified |
| GameRules.EvaluateSkillCheck | app/game_rules.py:199-231 | the loops reject repeated actions and score the longest common prefix |
| GameRules.SkillScoreOrder | app/game_rules.py:224 | the score lies in 0..max_score, grows with the prefix and is max_score for a full match |
| GameRules.SkillScoreIsFloor | app/game_rules.py:224 | the score is the floor of the maximum times the prefix over the length |
| GameRules.FindBandValue | app/game_rules.py:111-119 | the search returns the value of the first band with the key |
| GameRules.SpinEarnsItsBand | app/services/fairness.py:216-236 | a spin earns the value of the band that was drawn |
| GameRules.ProducedOutcomesScore | app/game_rules.py:233-247 | on every outcome the code can produce, extraction yields the reward, which is not negative |
| GameRules.ConfigWithinBound | app/services/leaderboards.py:121-138 | every produced skill score can be stored exactly if the configured maximum is within the table's bound |
| Lifecycle.PeriodIsTheWeek | app/services/leaderboards.py:42-49 | the period of a time is the one Monday-to-Monday week that contains it |
| LifecycleSafety.FinalizeIsSafe | app/services/session_termination.py:66-86 | finalising never fails in a reachable state, reports exactly whether the session was due, and ends session and proof together |
| LifecycleSafety.CallIsSafe | app/services/fairness.py:72-275 | every call keeps the joint invariant of session, proof, custody, events, outcome, reward and score |
| LifecycleSafety.EveryReachableState | app/services/fairness.py:154-275 | what a committed, revealed, expired or cancelled proof implies for session, custody, events, outcome and reward, in every run |
| LifecycleSafety.EndedStaysForever | app/session_transitions.py:9-25 | after a session has ended no call changes it, its proof, seed, events or outcome, nor the value of its reward; a claimed reward keeps its whole row |
| LifecycleSafety.RevealedVerifiesForever | app/services/fairness.py:423-457 | while the pinned payload is left alone, a revealed proof verifies at every later point of every run, draw and chain; chains of all other proofs verify too |
| LifecycleSafety.CommitFixesDraw | app/services/fairness.py:202-213 | from the commit on, however two runs continue, the same client seed reveals the same result and reward |
| LifecycleSafety.EvaluationReplays | app/services/fairness.py:179-189 | after a reveal the same request is answered from the stored rows for ever and a different one is a conflict |
| LifecycleSafety.NoIntegrityErrors | app/services/gameplay.py:79-83 | under a configuration within the table's bounds no reachable call violates a database constraint |
| LifecycleSafety.DueSessionsEnd | app/services/sessions.py:132-143 | in every reachable state, the owner's first call that meets an elapsed session ends it, with its committed proof and seed |
| LifecycleSafety.RunningSessionsAdvance | app/services/fairness.py:86-151 | in every reachable state of a running session the owner's commit, evaluation and cancellation succeed and do what they are for |
| LifecycleSafety.DirectPlayCompletes | app/services/gameplay.py:66-100 | in every reachable state a play completes the session with outcome and issued reward exactly if the rules accept it and the reward fits; a fairness game is refused (what is accepted and earned: `PlayedCard`, `PlayedSkill`) |
| LifecycleSafety.PlayReplays | app/services/gameplay.py:46-65 | a repeated prediction is answered from the stored outcome exactly if the choice is the same; other games refuse a second play |
| LifecycleSafety.SubmitSucceedsIff | app/services/leaderboards.py:113-141 | a completed session's score is entered exactly if its week is still open and the value fits the table |
| LifecycleSafety.ClaimIsOnce | app/services/rewards.py:31-68 | in every run at most one claim succeeds, the reward is claimed at the end exactly if one did, and it keeps that call's time |
| LifecycleRows.CommittedRows | app/services/fairness.py:103-151 | a commit is the owner's, on a running daily spin without a proof; the proof is bound to session, player and configuration, with the hash of the kept seed, the digest of the map, nonce zero and the versions, and a first event repeats it |
| LifecycleRows.EvaluatedRows | app/services/fairness.py:190-275 | an evaluation is the owner's, of a committed proof; session, outcome, reward, sealed evidence and second event hold, column by column, a draw from the kept seed and the client's |
| LifecycleRows.ExpiredRows | app/services/session_termination.py:20-86 | finalising an elapsed session expires it and its committed proof, deletes the seed and appends an event that continues the chain; nothing else changes |
| LifecycleRows.CancelledRows | app/services/sessions.py:210-227 | a cancellation is the owner's and ends a running session with its proof, or expires an elapsed one |
| LifecycleRows.PlayedCard | app/game_rules.py:145-180 | a prediction is accepted exactly if it is a configured choice and nothing else is submitted; it is correct exactly if it is the drawn choice, which alone earns the configured reward |
| LifecycleRows.PlayedSkill | app/game_rules.py:199-231 | a skill check is accepted exactly if its actions are distinct and nothing else is submitted; score and reward are the floor of the maximum's share that the correct beginning has of the challenge |
| LifecycleRows.ScoredRows | app/services/leaderboards.py:96-141 | a submission is the active owner's, of a completed session in its open week; it enters the outcome's score with the session's end and its Monday |
| LifecycleRows.ClaimedRows | app/services/rewards.py:42-68 | a claim succeeds exactly if it is the owner's and the reward is issued; it sets status and time and nothing else |
| LifecycleRows.StrangersChangeNothing | app/services/rewards.py:57 | in every reachable state a call by anyone but the owner changes nothing and is refused as forbidden, or not found if an evaluation names another proof |
| LifecycleRows.EveryAnswer | app/services/gameplay.py:38-100 | in every reachable state the owner's call is answered by the first check that fails, in the order of the code, and does its work if none does |
| SessionService.SessionRecords.EndCommittedFairnessProof | app/services/session_termination.py:20-63 | the in-place update equals the step: status, custody and appended event, or nothing |
| SessionService.SessionRecords.FinalizeExpiredSession | app/services/session_termination.py:66-86 | the in-place update equals the step, with its report of a change |
| SessionService.SessionRecords.CommitFairnessProof | app/services/fairness.py:72-151 | rows and reply are those of the commit step; a raised error leaves no trace but a committed expiry |
| SessionService.SessionRecords.EvaluateFairnessProof | app/services/fairness.py:154-275 | rows and reply are those of the evaluation step, rolled back on every error after the first write |
| SessionService.SessionRecords.Cancel | app/services/sessions.py:210-227 | rows and reply are those of the cancellation step |
| SessionService.SessionRecords.Retrieve | app/services/sessions.py:132-143 | rows and reply are those of the expiring read |
| SessionService.SessionRecords.Play | app/services/gameplay.py:27-100 | rows and reply are those of the play step, retries included; a card's play stores whether choice and drawn choice are the same and pays for that alone, a skill check's pays its score |
| SessionService.SessionRecords.SubmitScore | app/services/leaderboards.py:83-141 | rows and reply are those of the submission step |
| SessionService.SessionRecords.ClaimReward | app/services/rewards.py:42-68 | rows and reply are those of the claim step |
| SessionService.SessionRecords.VerifyProof | app/services/fairness.py:423-457 | a proof is verified exactly if its recomputed draw and its chain both check |
| ConfigHistory.MoveKeepsHistory | app/services/fairness.py:72-275 | every call and every update that the trigger allows keeps the record of the maps under which the proof was committed and drawn |
| ConfigHistory.VerifiesUnlessAltered | app/services/fairness.py:423-457 | in every run of calls and updates a revealed proof verifies exactly if the payload holds the map of the commit and of the evaluation, up to a collision of SHA-256 or HMAC-SHA-256 |
| ConfigHistory.DigestGuardsEvaluation | app/services/fairness.py:196-213 | in every run an evaluation reveals a proof that verifies exactly if the payload's map has the committed digest |
| ConfigHistory.PublishedRowsKeepProofs | alembic/versions/0015_multiple_published_configs.py:24-43 | in every run whose updates meet only published rows the payload never changes and every revealed proof verifies |
| ConfigHistory.PublishedOnlyRetires | alembic/versions/0015_multiple_published_configs.py:24-43 | the only updates of a published row that go through set its status to retired; they leave every other column, except that the time of publication can be set to NULL |
| ConfigHistory.RewriteBreaksProof | alembic/versions/0015_multiple_published_configs.py:34-40 | commit, retire, rewrite to a map of another digest, evaluate: the revealed proof does not verify |
| ConfigHistory.ProofNeedsItsBands | app/rng.py:353-354 | a verified proof is verified under another map exactly if it is the same map, or the encodings of the two collide under SHA-256 |
| Transactions.LocksMakeAtomic | app/services/fairness.py:167-178 | an evaluation under its locks, without a second owner check, is the atomic call |
| Transactions.StaysAuthorized | app/persistence/fairness.py:112-126 | what the unlocked read found stays true, because id and owner of a proof never change |
| Transactions.InterleavingsAreSerial | app/persistence/sessions.py:93-97 | every interleaving of statements gives the rows and replies of its finished calls executed one at a time |
| Transactions.OneHolder | app/persistence/fairness.py:103-109 | two transactions are never past the session lock at once, so nobody waits for the proof row |
| Transactions.AtMostOneOfEach | app/services/fairness.py:96-99 | in any history at most one commit inserts a proof and at most one evaluation reveals it |
| Transactions.OneTerminalTransition | app/services/fairness.py:190-195 | once the committed session has ended, no later statement changes session, proof, seed, events or outcome |
| Sessions.LatestIsLatest | app/persistence/sessions.py:49-58 | the latest session is the one with the greatest creation time, then id |
| Sessions.SessionTable.CreateSession | app/services/sessions.py:60-129 | rows and reply are those of the creation step; a raised error also undoes its expirations |
| Sessions.SessionTable.RetrieveState | app/services/sessions.py:146-207 | the checks in order; then elapsed sessions are ended, and the reply names the latest session and the end of its cooldown, if that lies ahead |
| SessionSafety.StepIsSafe | app/services/sessions.py:60-129 | every step keeps order, unique requests, one active session per pair and the spacing by cooldowns |
| SessionSafety.AtMostOneActive | app/models.py:165-171 | in every run each player has at most one active session of a game |
| SessionSafety.RequestNamesOneSession | app/services/sessions.py:71-83 | a request id names one session for ever: repeating it returns that session, anything else is a conflict |
| SessionSafety.SeparatedUnlessTied | app/services/sessions.py:100-109 | two sessions of a pair are apart by the earlier one's cooldown unless that one shares its microsecond with an earlier one that had none |
| SessionSafety.CooldownsSeparateIff | app/services/sessions.py:100-109 | cooldowns separate a player's sessions of a game in every run exactly when the game's configurations do not mix zero and positive cooldowns |
| SessionSafety.TieSkipsCooldown | app/persistence/sessions.py:49-58 | a run in which a tie makes the wrong session the latest and a cooldown is skipped |
| SessionSafety.WindowBound | app/services/sessions.py:103-109 | with cooldowns of at least c a window of length T sees at most T / c + 1 sessions of a pair |
| SessionSafety.CreationSucceedsIff | app/services/sessions.py:94-129 | a new request is granted exactly if no session of the pair is running and the latest has cooled down by its pinned seconds; the new row then has the columns asked for and its own duration |
| SessionSafety.CreatedRows | app/services/sessions.py:60-129 | a granted session is the owner's, of an active player and game; its row has the columns asked for, the current configuration, and expires after the skill check's own duration or five minutes; beside it only elapsed sessions of the pair change, and a rejected call changes nothing |
| SessionSafety.CreationIsRefused | app/services/sessions.py:69-115 | the checks in their order, each with its reason; a refusal for a running session, a cooldown, an unknown game or a taken id has that cause |
| SessionSafety.NextPlayAtIsTheCooldown | app/services/sessions.py:175-184 | right after the recovery view, creation is refused for the cooldown exactly if `next_play_at` was given and the latest session is not active |
| SessionSafety.NextPlayAtIsTheEnd | app/services/sessions.py:182-184 | the time given is the first at which the cooldown no longer holds |
| SessionSafety.LookedRows | app/services/sessions.py:146-207 | the recovery view is the owner's: elapsed sessions of the pair expire, the latest session is named, and its creation plus the pinned cooldown in seconds is given exactly if that lies ahead |
| Settlement.AwardIsFirstMatch | app/services/leaderboards.py:294-309 | a rank gets what the first tier whose range contains it gives, its value and its key as the column keeps it: or the refusal of one without text key or non-negative number, or the error of one that the columns cannot hold; nothing if there is no such tier |
| Settlement.LoopStaysConsistent | app/services/leaderboards.py:291-330 | stopped after any number of ranks, the loop leaves only rightful recipients and rewards, and all of those of the ranks it passed; it stops by itself exactly at the first rank whose tier is malformed or too wide for its row, with that error |
| Settlement.SettlingIsExact | app/services/leaderboards.py:261-349 | from any consistent partial state a settlement that comes to paying succeeds exactly if no rank falls to a tier that cannot be paid: every entry then has the player, rank, key and value of the first tier whose range contains its rank, and a reward of that value, or nothing; else it raises the first such rank's error and changes nothing |
| Settlement.SettlingIsRefused | app/services/leaderboards.py:243-290 | the checks before the loop in their order, authorization first: each leaves the rows as they are and names its reason; a run keeps its tiers, a new one takes those in force |
| Settlement.TakenPlaceConflicts | alembic/versions/0010_settlements.py:48-67 | a rank or player that another recipient of the run holds stops the loop |
| Settlement.SettlementRun.PayRanks | app/services/leaderboards.py:291-330 | the rows are those of the loop function; from any consistent partial state exactly the covered ranks, each with the key and value of its tier and one reward of that value, or the error of the first tier that cannot be paid |
| Settlement.SettlementRun.Settle | app/services/leaderboards.py:233-349 | reply and rows are those of the settling step: every refusal in order, a settled run never touched again, otherwise every entry with the key and value of the first tier whose range contains its rank and a reward of that value, or the error of the first tier that cannot be paid |
| Settlement.ResumedIsFresh | app/services/leaderboards.py:291-330 | resumed from any consistent partial state the loop ends in the same recipients, rewards and total as from nothing, or in the same error |
| Settlement.TotalPaid | app/services/leaderboards.py:293-330 | the total paid is the sum, over the ranks, of the values of the first tiers whose ranges contain them |
| Settlement.SettlementListIsDistinct | app/persistence/leaderboards.py:116-144 | the settled list has distinct scores and players, so a fresh settlement meets no conflict |
| Settlement.OversizedTierNeverSettles | alembic/versions/0010_settlements.py:48-67 | under a tier whose value exceeds 32 bits a week with an entry cannot be settled at any time: the insert of the first recipient fails |
| Season.SettledBoardsAreFinal | app/services/leaderboards.py:233-349 | in every run of submissions and settlements, also cut off in their loop: a settled week keeps scores, recipients and rewards for ever, and they are exactly what its board calls for, to the total |
| Season.SettlingSucceedsIff | app/services/leaderboards.py:266-332 | in every run a settlement that passes the checks before its loop succeeds exactly if no rank meets a malformed or too wide tier; what earlier attempts left is never in its way |
| LateScores.SettledMissesTheLate | app/services/leaderboards.py:83-141 | with submissions split into check and commit and settlements into read and commit, in every run: a settled week is for ever what its tiers call for on the board that its settlement read, and a score of the final board is missing there exactly if it was checked before the week's end and committed after that read |
| LateScores.LateScoreIsMissed | app/services/leaderboards.py:126-141 | a run in which the only score of a settled week has no recipient although the first rank is rewarded |
| EventHub.LeaderboardSubscription.Offer | app/leaderboard_events.py:44-51 | the newest signal is always queued; a full queue loses its oldest |
| EventHub.LeaderboardSubscription.Receive | app/leaderboard_events.py:32-35 | signals are received oldest first |
| EventHub.LeaderboardSubscription.CloseDown | app/leaderboard_events.py:37-42 | closing stops further offers, removes the subscriber and is idempotent |
| EventHub.LeaderboardEventHub.Subscribe | app/leaderboard_events.py:69-78 | a late subscriber gets only the sentinel |
| EventHub.LeaderboardEventHub.Publish | app/leaderboard_events.py:86-96 | every registered subscriber of the board is offered the event, nobody else is |
| EventHub.LeaderboardEventHub.Shutdown | app/leaderboard_events.py:98-108 | every stream is offered the sentinel once and none stays registered |
| EventHub.TakeIsSafe | app/leaderboard_events.py:32-35 | receiving extends what was received by the front of the queue |
| EventHub.HubFollowsItsRun | app/leaderboard_events.py:54-108 | in every run the subscribers are those that joined, open exactly those that have not left; the hub is down exactly after a shutdown and has published what came before it |
| EventHub.EveryOpenStream | app/leaderboard_events.py:54-108 | in every run an open subscriber was offered exactly its events since joining; it received a subsequence, missed only overtaken ones, and ends with the sentinel |

## Left out

* FastAPI routes, schemas, middleware, metrics, logging, configuration loading, templates and JavaScript: no property
  that spans operations.
* Analytics, audit rows and public labels: insert-only side tables that no modelled decision reads.
* Missing parent rows: lookups of a game, player or configuration that foreign keys guarantee are not failing branches
  of the per-session model.
* Redis and database outages in general. The rebuild's lost EXEC answer, its failed expiry and its cleanup are
  modelled; a reader's Redis error at any of its commands makes it fall back to PostgreSQL.
* The generic bounded draw's message text: the prefix is a parameter, and no injectivity is claimed for it.
* Booleans stored where JSON integers are expected (Python counts `True` as an integer) in tier lists.
* Liveness and deadlocks of PostgreSQL locks; implicit foreign-key locks are not visible in the code.
* `tools/simulate.py`, the seed and demo tools, and every migration but the triggers of 0013 and 0015. The trigger
  that makes proof statuses move forward only (0008) is never met: the lifecycle model proves the same without it.
* Reward expiry: no code sets that status, so the model only lets a claim refuse it.
* A rank request that falls back reads the canonical rank from PostgreSQL; the runs model that read for pages only.
* Configuration payloads that fail their schema: a payload is that of one of the three games, with reward keys that
  fit their column. Draws of 2^63 attempts, which the column of the attempt could not hold.
* Season: submitting and settling are atomic steps there, and a loop cut off in the middle may leave its rows;
  `LateScores` interleaves the parts of both, with settlements that leave all of their rows or none, as the code does.
- RebuildSafety.RedisRankIsCanonical: holds for runs without an intruder; what holds with one is `RankIsAnOwnEntry`.
- Sessions.SessionTable.RetrieveState: leaves out the outcome, reward, proof and score rows that the reply attaches to
  the latest session.
- LifecycleRows.EveryAnswer: a play that passes the checks before the rules is left to `PlayedCard`, `PlayedSkill` and
  `PlayReplays`, which say when it succeeds or is answered from the stored outcome.
- CacheProgress.UpToDateGenerationServes: says nothing about a disturbed request, which may fall back.
- Transactions.InterleavingsAreSerial: covers commit, evaluate, cancel and the expiring read of one session; play,
  submit and claim are covered by the atomic lifecycle only.
- EventHub.EveryOpenStream: takes each hub call as one step, which the single-threaded event loop gives after the lock
  is acquired.
