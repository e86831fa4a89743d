/** The rules of the three games: what a play results in, what it earns, and what score it enters on the
    leaderboard. */
module GameRules {
  import opened Text
  import opened Bytes
  import opened Rng
  import opened SpinProof
  import Board

  const PREDICTION_CARD: string := "prediction_card"
  const SKILL_CHECK: string := "skill_check"
  const DAILY_SPIN: string := "daily_spin"

  /** A configuration payload that passed its schema. */
  datatype Config =
    | DailySpinConfig(cooldown: nat, rewards: seq<RewardBand>)
    | PredictionCardConfig(cooldown: nat, choices: seq<string>, correctReward: nat)
    | SkillCheckConfig(cooldown: nat, duration: nat, maxScore: nat)

  datatype Result =
    | SpinResult(rewardKey: seq<CodePoint>, normalized: int, digest: string)
    | CardResult(playerChoice: string, authoritativeChoice: string, correct: bool, drawn: nat, digest: string)
    | SkillResult(score: int, correctActions: nat, submittedActions: nat, elapsedMs: nat)

  datatype Intent = Intent(choice: Option<string>, actions: Option<seq<int>>)

  /** `Invalid` is InvalidRulesInputError; `Fault` any other exception. */
  datatype Evaluation = Evaluated(result: Result) | Invalid | Fault

  predicate Distinct(actions: seq<int>) {
    forall i, j | 0 <= i < j < |actions| :: actions[i] != actions[j]
  }

  // ---------- skill check ----------

  /** Length of the longest common prefix. */
  function CommonPrefix(a: seq<int>, b: seq<int>): (n: nat)
    ensures n <= |a| && n <= |b|
  {
    if a == [] || b == [] || a[0] != b[0] then 0 else 1 + CommonPrefix(a[1..], b[1..])
  }

  lemma {:induction false} CommonPrefixIs(a: seq<int>, b: seq<int>, n: nat)
    requires n <= |a| && n <= |b| && a[..n] == b[..n]
    requires n == |a| || n == |b| || a[n] != b[n]
    ensures CommonPrefix(a, b) == n
  {
    if n > 0 {
      assert a[0] == a[..n][0] && b[0] == b[..n][0];
      assert a[1..][..n - 1] == a[..n][1..] && b[1..][..n - 1] == b[..n][1..];
      CommonPrefixIs(a[1..], b[1..], n - 1);
    }
  }

  function SkillScore(maxScore: nat, prefix: nat, length: nat): nat
    requires length > 0
  {
    maxScore * prefix / length
  }

  function ElapsedMs(createdUs: int, nowUs: int): nat {
    if nowUs <= createdUs then 0 else (nowUs - createdUs) / 1000
  }

  /** What a skill-check play results in. */
  function SkillPlay(config: Config, challenge: Option<seq<int>>, intent: Intent, createdUs: int,
                     nowUs: int): Evaluation {
    if !config.SkillCheckConfig? || intent.actions.None? || intent.choice.Some? || challenge.None?
       || !Distinct(intent.actions.value) then Invalid
    else if challenge.value == [] then Fault
    else
      var prefix := CommonPrefix(intent.actions.value, challenge.value);
      Evaluated(SkillResult(SkillScore(config.maxScore, prefix, |challenge.value|), prefix, |intent.actions.value|,
                            ElapsedMs(createdUs, nowUs)))
  }

  method EvaluateSkillCheck(config: Config, challenge: Option<seq<int>>, intent: Intent, createdUs: int, nowUs: int)
    returns (r: Evaluation)
    ensures r == SkillPlay(config, challenge, intent, createdUs, nowUs)
  {
    if !config.SkillCheckConfig? || intent.actions.None? || intent.choice.Some? || challenge.None? { return Invalid; }
    var actions, sequence := intent.actions.value, challenge.value;
    var seen: set<int> := {};
    for i := 0 to |actions|
      invariant seen == (set k | 0 <= k < i :: actions[k])
      invariant forall j, k | 0 <= j < k < i :: actions[j] != actions[k]
    {
      if actions[i] in seen { return Invalid; }
      seen := seen + {actions[i]};
    }
    var prefix := 0;
    while prefix < |actions| && prefix < |sequence| && actions[prefix] == sequence[prefix]
      invariant prefix <= |actions| && prefix <= |sequence| && actions[..prefix] == sequence[..prefix]
    {
      assert actions[..prefix + 1] == actions[..prefix] + [actions[prefix]];
      prefix := prefix + 1;
    }
    CommonPrefixIs(actions, sequence, prefix);
    if |sequence| == 0 { return Fault; }
    r := Evaluated(SkillResult(config.maxScore * prefix / |sequence|, prefix, |actions|, ElapsedMs(createdUs, nowUs)));
  }

  lemma Quotient(a: nat, b: nat, d: nat)
    requires d > 0 && a <= b
    ensures a / d <= b / d
  {
    var m, n := a / d, b / d;
    assert a == m * d + a % d && b == n * d + b % d;
    if n < m { Multiply(n + 1, m, d); }
  }

  /** The score lies between zero and the maximum, grows with the correct prefix, and is the maximum when the
      whole challenge is answered. */
  lemma SkillScoreOrder(maxScore: nat, shorter: nat, longer: nat, length: nat)
    requires 0 < length && shorter <= longer <= length
    ensures SkillScore(maxScore, shorter, length) <= SkillScore(maxScore, longer, length) <= maxScore
    ensures SkillScore(maxScore, length, length) == maxScore && SkillScore(maxScore, 0, length) == 0
  {
    Multiply(shorter, longer, maxScore);
    Multiply(longer, length, maxScore);
    Quotient(maxScore * shorter, maxScore * longer, length);
    Quotient(maxScore * longer, maxScore * length, length);
    assert maxScore * length == length * maxScore;
    ExactQuotient(maxScore, length);
    ExactQuotient(0, length);
  }

  /** The score is the floor of the maximum's share that the prefix has of the challenge. */
  lemma SkillScoreIsFloor(maxScore: nat, prefix: nat, length: nat)
    requires length > 0
    ensures var score := SkillScore(maxScore, prefix, length); score * length <= maxScore * prefix < (score + 1) * length
  {
    var share := maxScore * prefix;
    assert share == share / length * length + share % length;
  }

  // ---------- prediction card ----------

  /** What a prediction-card play results in, given the draw for its number of choices. */
  function CardPlay(config: Config, intent: Intent, drawn: Uniform): Evaluation {
    if !config.PredictionCardConfig? || intent.choice.None? || intent.choice.value !in config.choices
       || intent.actions.Some? then Invalid
    else
      match drawn
      case Value(value, digest) =>
        if value >= |config.choices| then Fault
        else
          var authoritative := config.choices[value];
          Evaluated(CardResult(intent.choice.value, authoritative, intent.choice.value == authoritative, value, digest))
      case _ => Fault
  }

  /** Whether a replayed intent is the one that produced a stored outcome; `None` declines. */
  function RetryMatches(gameKey: string, result: Result, intent: Intent): Option<bool> {
    if gameKey == PREDICTION_CARD then
      Some(intent.actions.None? && intent.choice == (if result.CardResult? then Some(result.playerChoice) else None))
    else None
  }

  // ---------- rewards and scores ----------

  /** `DailySpinRules.reward_value`: the first band with the key. */
  function BandValue(bands: seq<RewardBand>, key: seq<CodePoint>): Option<int> {
    if bands == [] then None
    else if bands[0].key == key then Some(bands[0].value)
    else BandValue(bands[1..], key)
  }

  method FindBandValue(bands: seq<RewardBand>, key: seq<CodePoint>) returns (value: Option<int>)
    ensures value == BandValue(bands, key)
  {
    for i := 0 to |bands|
      invariant BandValue(bands, key) == BandValue(bands[i..], key)
    {
      if bands[i].key == key { return Some(bands[i].value); }
      assert bands[i..][1..] == bands[i + 1..];
    }
    assert bands[|bands|..] == [];
    value := None;
  }

  /** On a map with unique keys the search finds the value of the band that was drawn. */
  lemma {:induction false} BandValueFinds(bands: seq<RewardBand>, i: nat)
    requires UniqueKeys(bands) && i < |bands|
    ensures BandValue(bands, bands[i].key) == Some(bands[i].value)
  {
    if i > 0 {
      assert bands[1..][i - 1] == bands[i];
      BandValueFinds(bands[1..], i - 1);
    }
  }

  /** What an outcome earns; `None` is InvalidPlayError. */
  function RewardValue(gameKey: string, config: Config, result: Result): Option<int> {
    if gameKey == DAILY_SPIN then
      if config.DailySpinConfig? && result.SpinResult? then BandValue(config.rewards, result.rewardKey) else None
    else if gameKey == PREDICTION_CARD then
      if config.PredictionCardConfig? then Some(if result.CardResult? && result.correct then config.correctReward else 0) else None
    else if gameKey == SKILL_CHECK then SkillLeaderboardScore(config, result)
    else None
  }

  function SkillLeaderboardScore(config: Config, result: Result): Option<int> {
    if config.SkillCheckConfig? && result.SkillResult? && 0 <= result.score <= config.maxScore then Some(result.score) else None
  }

  /** What an outcome scores; `None` is InvalidRulesInputError. */
  function LeaderboardScore(gameKey: string, config: Config, result: Result): Option<int> {
    if gameKey == SKILL_CHECK then SkillLeaderboardScore(config, result) else RewardValue(gameKey, config, result)
  }

  predicate KnownGame(gameKey: string) {
    gameKey == DAILY_SPIN || gameKey == PREDICTION_CARD || gameKey == SKILL_CHECK
  }

  predicate FairnessGame(gameKey: string) {
    gameKey == DAILY_SPIN
  }

  /** `result` is what playing that game under that configuration gives for some input. */
  ghost predicate Produced(crypto: Crypto, gameKey: string, config: Config, result: Result) {
    || (gameKey == DAILY_SPIN && config.DailySpinConfig?
        && exists input ::
           && ValidInput(input) && Ends(crypto, input) && input.bands == config.rewards
           && result == SpinOutcome(Derived(crypto, input)))
    || (gameKey == PREDICTION_CARD && exists intent, drawn :: CardPlay(config, intent, drawn) == Evaluated(result))
    || (gameKey == SKILL_CHECK && exists challenge, intent, created, now ::
           SkillPlay(config, challenge, intent, created, now) == Evaluated(result))
  }

  function SpinOutcome(d: Derivation): Result {
    SpinResult(d.reward.key, d.normalizedValue, d.rawDigestHex)
  }

  /** A spin earns the value of the band that was drawn. */
  lemma SpinEarnsItsBand(crypto: Crypto, config: Config, input: SpinInput)
    requires config.DailySpinConfig? && ValidInput(input) && Ends(crypto, input) && input.bands == config.rewards
    ensures var d := Derived(crypto, input);
      RewardValue(DAILY_SPIN, config, SpinOutcome(d)) == Some(d.reward.value) && d.reward.value >= 0
  {
    TotalIsPositive(input.bands);
    var d := Derived(crypto, input);
    BandValueFinds(config.rewards, Selected(input.bands, d.normalizedValue));
  }

  /** Score extraction never fails on an outcome the code produced: it yields the reward, which is not
      negative and, in the skill check, at most the maximum. */
  lemma ProducedOutcomesScore(crypto: Crypto, gameKey: string, config: Config, result: Result)
    ensures Produced(crypto, gameKey, config, result) ==> ScoresWhatItEarns(gameKey, config, result)
  {
    hide Ends, ValidInput, Derived, CommonPrefix, SkillScore;
    if Produced(crypto, gameKey, config, result) {
      if gameKey == DAILY_SPIN {
        var input :| ValidInput(input) && Ends(crypto, input) && input.bands == config.rewards
                     && result == SpinOutcome(Derived(crypto, input));
        SpinEarnsItsBand(crypto, config, input);
      } else if gameKey == SKILL_CHECK {
        var challenge, intent, created, now :| SkillPlay(config, challenge, intent, created, now) == Evaluated(result);
        SkillScoreOrder(config.maxScore, result.correctActions, result.correctActions, |challenge.value|);
      }
    }
  }

  /** Reward and score can be worked out and are the same; a skill score is at most the maximum. */
  predicate ScoresWhatItEarns(gameKey: string, config: Config, result: Result) {
    && KnownGame(gameKey)
    && RewardValue(gameKey, config, result).Some? && RewardValue(gameKey, config, result).value >= 0
    && LeaderboardScore(gameKey, config, result) == RewardValue(gameKey, config, result)
    && (gameKey == SKILL_CHECK ==> config.SkillCheckConfig? && result.SkillResult? && result.score <= config.maxScore)
  }

  // ---------- the leaderboard table ----------

  /** A produced score can be stored for every outcome exactly when the configuration stays within the table's
      bound. */
  lemma ConfigWithinBound(crypto: Crypto, config: Config)
    requires config.SkillCheckConfig?
    ensures (forall result :: Produced(crypto, SKILL_CHECK, config, result) ==>
               LeaderboardScore(SKILL_CHECK, config, result).Some? && Board.Storable(LeaderboardScore(SKILL_CHECK, config, result).value))
       <==> config.maxScore <= Board.MAX_FINAL_SCORE
  {
    hide Produced, LeaderboardScore;
    forall result | Produced(crypto, SKILL_CHECK, config, result) ensures LeaderboardScore(SKILL_CHECK, config, result).Some? {
      ProducedOutcomesScore(crypto, SKILL_CHECK, config, result);
    }
    if config.maxScore <= Board.MAX_FINAL_SCORE {
      forall result | Produced(crypto, SKILL_CHECK, config, result)
        ensures Board.Storable(LeaderboardScore(SKILL_CHECK, config, result).value)
      {
        ProducedOutcomesScore(crypto, SKILL_CHECK, config, result);
      }
    } else {
      var best := BestPlay(crypto, config);
    }
  }

  /** A full match scores the maximum. */
  lemma BestPlay(crypto: Crypto, config: Config) returns (best: Result)
    requires config.SkillCheckConfig?
    ensures Produced(crypto, SKILL_CHECK, config, best) && LeaderboardScore(SKILL_CHECK, config, best) == Some(config.maxScore)
  {
    var challenge, intent := [7], Intent(None, Some([7]));
    CommonPrefixIs(challenge, challenge, 1);
    SkillScoreOrder(config.maxScore, 1, 1, 1);
    best := SkillResult(config.maxScore, 1, 1, 0);
    hide CommonPrefix, SkillScore;
    assert SkillPlay(config, Some(challenge), intent, 0, 0) == Evaluated(best);
  }
}
