/** Weighted reward bands and unbiased draws by rejection sampling. */
module Rng {
  import opened Text
  import opened Bytes

  // ---------- reward bands ----------

  datatype RewardBand = RewardBand(key: seq<CodePoint>, weight: int, value: int)

  const MAX_REWARD_WEIGHT: int := 0x7FFF_FFFF_FFFF_FFFF
  const MAX_REWARD_VALUE: int := 0x7FFF_FFFF

  /** Total weight of the first `n` bands. */
  function WeightBefore(bands: seq<RewardBand>, n: nat): int
    requires n <= |bands|
  {
    if n == 0 then 0 else WeightBefore(bands, n - 1) + bands[n - 1].weight
  }

  function TotalWeight(bands: seq<RewardBand>): int {
    WeightBefore(bands, |bands|)
  }

  predicate ValidBand(band: RewardBand) {
    && band.key != [] && Utf8(band.key).Some?
    && 0 < band.weight <= MAX_REWARD_WEIGHT
    && 0 <= band.value <= MAX_REWARD_VALUE
  }

  predicate UniqueKeys(bands: seq<RewardBand>) {
    forall i, j | 0 <= i < j < |bands| :: bands[i].key != bands[j].key
  }

  predicate ValidBands(bands: seq<RewardBand>) {
    && bands != []
    && (forall i | 0 <= i < |bands| :: ValidBand(bands[i]))
    && UniqueKeys(bands)
    && TotalWeight(bands) <= MAX_REWARD_WEIGHT
  }

  lemma {:induction false} WeightGrows(bands: seq<RewardBand>, m: nat, n: nat)
    requires m <= n <= |bands| && forall i | 0 <= i < |bands| :: ValidBand(bands[i])
    ensures WeightBefore(bands, m) + (n - m) <= WeightBefore(bands, n)
  {
    if m < n {
      assert ValidBand(bands[n - 1]);
      WeightGrows(bands, m, n - 1);
    }
  }

  lemma TotalIsPositive(bands: seq<RewardBand>)
    requires ValidBands(bands)
    ensures 0 < TotalWeight(bands) <= MAX_REWARD_WEIGHT
  {
    WeightGrows(bands, 0, |bands|);
  }

  function KeysOf(bands: seq<RewardBand>): set<seq<CodePoint>> {
    set band | band in bands :: band.key
  }

  lemma EmptyKeys(bands: seq<RewardBand>)
    requires bands == []
    ensures KeysOf(bands) == {} && UniqueKeys(bands)
  {
  }

  lemma NextKey(bands: seq<RewardBand>, i: nat)
    requires i < |bands| && UniqueKeys(bands[..i])
    ensures KeysOf(bands[..i + 1]) == KeysOf(bands[..i]) + {bands[i].key}
    ensures UniqueKeys(bands[..i + 1]) <==> bands[i].key !in KeysOf(bands[..i])
    ensures UniqueKeys(bands) ==> UniqueKeys(bands[..i + 1])
  {
    assert bands[..i + 1] == bands[..i] + [bands[i]];
    if bands[i].key in KeysOf(bands[..i]) {
      var j :| 0 <= j < i && bands[..i][j].key == bands[i].key;
      assert bands[..i + 1][j].key == bands[..i + 1][i].key;
    }
  }

  /** `_validate_reward_bands`: the running total never passes the bound on a map it accepts. */
  /** A map is valid exactly if it is not empty, its keys are distinct, not empty and encodable, its weights are positive
      and with their sum fit 64 bits with a sign, and its values fit 32. */
  lemma ValidBandsInFull(bands: seq<RewardBand>)
    ensures ValidBands(bands) <==>
      && bands != [] && TotalWeight(bands) <= 9_223_372_036_854_775_807
      && (forall i, j | 0 <= i < j < |bands| :: bands[i].key != bands[j].key)
      && (forall i | 0 <= i < |bands| :: 1 <= bands[i].weight <= 9_223_372_036_854_775_807)
      && (forall i | 0 <= i < |bands| :: 0 <= bands[i].value <= 2_147_483_647)
      && (forall i | 0 <= i < |bands| :: bands[i].key != [] && Utf8(bands[i].key).Some?)
  {
    hide Utf8;
  }

  method ValidateRewardBands(bands: seq<RewardBand>) returns (valid: bool)
    ensures valid <==> ValidBands(bands)
  {
    hide Utf8, UniqueKeys, KeysOf;
    if bands == [] { return false; }
    EmptyKeys(bands[..0]);
    var total := 0;
    var keys: set<seq<CodePoint>> := {};
    for i := 0 to |bands|
      invariant total == WeightBefore(bands, i) && total <= MAX_REWARD_WEIGHT
      invariant forall k | 0 <= k < i :: ValidBand(bands[k])
      invariant keys == KeysOf(bands[..i]) && UniqueKeys(bands[..i])
    {
      var band := bands[i];
      NextKey(bands, i);
      if band.key == [] || Utf8(band.key).None? { return false; }
      if band.key in keys { return false; }
      keys := keys + {band.key};
      if !(0 < band.weight <= MAX_REWARD_WEIGHT) { return false; }
      if !(0 <= band.value <= MAX_REWARD_VALUE) { return false; }
      total := total + band.weight;
      if total > MAX_REWARD_WEIGHT {
        if forall k | 0 <= k < |bands| :: ValidBand(bands[k]) { WeightGrows(bands, i + 1, |bands|); }
        return false;
      }
    }
    assert bands[..|bands|] == bands;
    return true;
  }

  // ---------- selection ----------

  /** Band `i` owns the values from the weight before it up to the weight after it. */
  predicate Owns(bands: seq<RewardBand>, i: nat, value: int)
    requires i < |bands|
  {
    WeightBefore(bands, i) <= value < WeightBefore(bands, i + 1)
  }

  lemma OwnerIsUnique(bands: seq<RewardBand>, i: nat, j: nat, value: int)
    requires ValidBands(bands) && i < |bands| && j < |bands| && Owns(bands, i, value) && Owns(bands, j, value)
    ensures i == j
  {
    hide Utf8, UniqueKeys;
    if i < j { WeightGrows(bands, i + 1, j); } else if j < i { WeightGrows(bands, j + 1, i); }
  }

  lemma {:induction false} OwnerExists(bands: seq<RewardBand>, n: nat, value: int) returns (i: nat)
    requires n <= |bands| && 0 <= value < WeightBefore(bands, n)
    ensures i < n && Owns(bands, i, value)
  {
    if value < WeightBefore(bands, n - 1) { i := OwnerExists(bands, n - 1, value); } else { i := n - 1; }
  }

  /** The band that owns a value. */
  ghost function Selected(bands: seq<RewardBand>, value: int): (i: nat)
    requires ValidBands(bands) && 0 <= value < TotalWeight(bands)
    ensures i < |bands| && Owns(bands, i, value)
  {
    assert exists i: nat :: i < |bands| && Owns(bands, i, value) by {
      var i := OwnerExists(bands, |bands|, value);
    }
    var i: nat :| i < |bands| && Owns(bands, i, value);
    i
  }

  /** `select_daily_spin_reward`. `None` is InvalidRewardMappingError. */
  method SelectDailySpinReward(bands: seq<RewardBand>, normalized: int) returns (reward: Option<RewardBand>)
    ensures reward.Some? <==> ValidBands(bands) && 0 <= normalized < TotalWeight(bands)
    ensures reward.Some? ==> reward.value == bands[Selected(bands, normalized)]
  {
    var valid := ValidateRewardBands(bands);
    if !valid { return None; }
    var total := 0;
    for i := 0 to |bands|
      invariant total == WeightBefore(bands, i)
    {
      total := total + bands[i].weight;
    }
    if !(0 <= normalized < total) { return None; }
    var remaining := normalized;
    for i := 0 to |bands|
      invariant remaining == normalized - WeightBefore(bands, i) && remaining >= 0
    {
      if remaining < bands[i].weight {
        OwnerIsUnique(bands, i, Selected(bands, normalized), normalized);
        return Some(bands[i]);
      }
      remaining := remaining - bands[i].weight;
    }
    assert false;
  }

  // ---------- exact fairness ----------

  /** Raw values below the limit are accepted. */
  function Limit(total: nat): nat
    requires total > 0
  {
    SPACE - SPACE % total
  }

  lemma LimitIsMultiple(total: nat)
    requires total > 0
    ensures Limit(total) == total * (SPACE / total)
    ensures SPACE - total < Limit(total) <= SPACE
  {
  }

  /** The accepted raw values that normalise into band `i`. */
  ghost function Draws(bands: seq<RewardBand>, i: nat): set<nat>
    requires ValidBands(bands) && i < |bands|
  {
    TotalIsPositive(bands);
    set raw: nat | 0 <= raw < Limit(TotalWeight(bands)) && Owns(bands, i, raw % TotalWeight(bands))
  }

  predicate Between(lo: int, v: int, hi: int) {
    lo <= v < hi
  }

  ghost function Interval(lo: int, hi: int): set<int> {
    set v: int | lo <= v < hi && Between(lo, v, hi)
  }

  lemma {:induction false} IntervalSize(lo: int, hi: int)
    requires lo <= hi
    ensures |Interval(lo, hi)| == hi - lo
    decreases hi - lo
  {
    if lo < hi {
      IntervalSize(lo, hi - 1);
      assert Interval(lo, hi) == Interval(lo, hi - 1) + {hi - 1};
    } else {
      assert Interval(lo, hi) == {};
    }
  }

  /** Values below `rounds * total` whose remainder lies in [lo, hi). */
  ghost function Landing(total: nat, rounds: nat, lo: int, hi: int): set<nat>
    requires total > 0
  {
    set raw: nat | 0 <= raw < rounds * total && lo <= raw % total < hi
  }

  lemma RemainderInRound(total: nat, round: nat, raw: nat)
    requires total > 0 && round * total <= raw < (round + 1) * total
    ensures raw % total == raw - round * total
  {
    var q, r := raw / total, raw % total;
    assert raw == q * total + r && 0 <= r < total;
    if q < round { Multiply(q + 1, round, total); }
    if round < q { Multiply(round + 1, q, total); }
  }

  lemma Multiply(a: nat, b: nat, c: nat)
    requires a <= b
    ensures a * c <= b * c
  {
    assert (b - a) * c >= 0;
  }

  lemma {:induction false} LandingSize(total: nat, rounds: nat, lo: nat, hi: nat)
    requires total > 0 && lo <= hi <= total
    ensures |Landing(total, rounds, lo, hi)| == rounds * (hi - lo)
  {
    if rounds == 0 {
      assert Landing(total, rounds, lo, hi) == {};
    } else {
      var start := (rounds - 1) * total;
      assert rounds * total == start + total;
      LandingSize(total, rounds - 1, lo, hi);
      IntervalSize(start + lo, start + hi);
      var added, before := Interval(start + lo, start + hi), Landing(total, rounds - 1, lo, hi);
      forall raw: nat ensures raw in Landing(total, rounds, lo, hi) <==> raw in before || raw in added {
        if start <= raw < start + total { RemainderInRound(total, rounds - 1, raw); }
      }
      SameSize(Landing(total, rounds, lo, hi), before, added);
      assert rounds * (hi - lo) == (rounds - 1) * (hi - lo) + (hi - lo);
    }
  }

  /** Sizes of disjoint sets add up. */
  lemma SameSize(all: set<nat>, before: set<nat>, added: set<int>)
    requires forall raw: nat :: raw in all <==> raw in before || raw in added
    requires forall v | v in added :: v >= 0 && v !in before
    ensures |all| == |before| + |added|
  {
    var mixed: set<int> := before + added;
    assert forall v | v in mixed :: v >= 0;
    assert all <= mixed;
    assert mixed <= all by {
      forall v | v in mixed ensures v in all { var raw: nat := v; }
    }
    assert all == mixed;
  }

  /** The raw values that a draw rejects. */
  ghost function Rejects(total: nat): set<nat>
    requires total > 0
  {
    set raw: nat | 0 <= raw < SPACE && Between(Limit(total), raw, SPACE)
  }

  lemma RejectsCounted(total: nat)
    requires total > 0
    ensures |Rejects(total)| == SPACE % total < total
  {
    LimitIsMultiple(total);
    var rejected := Rejects(total);
    hide Limit;
    IntervalSize(Limit(total), SPACE);
    forall raw: nat ensures raw in rejected <==> raw in Interval(Limit(total), SPACE) {
    }
    SameSize(rejected, {}, Interval(Limit(total), SPACE));
  }

  lemma SelectingRead(bands: seq<RewardBand>, i: nat, d: Digest)
    requires ValidBands(bands) && i < |bands| && TotalWeight(bands) > 0
    ensures d in DigestsOf(Draws(bands, i))
       <==> Number(d) < Limit(TotalWeight(bands)) && Owns(bands, i, Number(d) % TotalWeight(bands))
  {
    hide ValidBands, DigestsOf, Number, TotalWeight, Limit, Owns;
    DigestsRead(Draws(bands, i), d);
  }

  lemma RejectedRead(total: nat, d: Digest)
    requires total > 0
    ensures d in DigestsOf(Rejects(total)) <==> Number(d) >= Limit(total)
  {
    hide DigestsOf, Number, Limit;
    DigestsRead(Rejects(total), d);
    DigestRoundTrip(d);
  }

  lemma DrawsBelow(bands: seq<RewardBand>, i: nat)
    requires ValidBands(bands) && i < |bands| && TotalWeight(bands) > 0
    ensures forall n | n in Draws(bands, i) :: n < SPACE
  {
    hide ValidBands, TotalWeight, Owns;
    LimitIsMultiple(TotalWeight(bands));
  }

  /** Of all digests, exactly weight * (limit / total) select a given band, and fewer than the total weight are
      rejected: a draw is exactly as likely as its weight says. */
  lemma DrawIsFair(bands: seq<RewardBand>, i: nat)
    requires ValidBands(bands) && i < |bands|
    ensures var total := TotalWeight(bands);
      && total > 0
      && var selecting, rejected := DigestsOf(Draws(bands, i)), DigestsOf(Rejects(total));
      && (forall d: Digest :: d in selecting <==> Number(d) < Limit(total) && Owns(bands, i, Number(d) % total))
      && (forall d: Digest :: d in rejected <==> Number(d) >= Limit(total))
      && |selecting| == bands[i].weight * (Limit(total) / total)
      && |rejected| == SPACE % total < total
  {
    TotalIsPositive(bands);
    var total := TotalWeight(bands);
    forall d: Digest ensures d in DigestsOf(Draws(bands, i)) <==> Number(d) < Limit(total) && Owns(bands, i, Number(d) % total) {
      SelectingRead(bands, i, d);
    }
    forall d: Digest ensures d in DigestsOf(Rejects(total)) <==> Number(d) >= Limit(total) { RejectedRead(total, d); }
    DrawsBelow(bands, i);
    hide TotalWeight, Limit, Draws, ValidBands, Owns, DigestsOf, Number;
    DigestsCounted(Draws(bands, i));
    DigestsCounted(Rejects(total));
    RejectsCounted(total);
    RoundsOfLimit(total);
    DrawsCounted(bands, i, Limit(total) / total);
  }

  lemma DrawsCounted(bands: seq<RewardBand>, i: nat, rounds: nat)
    requires ValidBands(bands) && i < |bands| && TotalWeight(bands) > 0 && rounds == SPACE / TotalWeight(bands)
    ensures |Draws(bands, i)| == bands[i].weight * rounds
  {
    hide TotalWeight, Landing, Draws, ValidBands;
    DrawsAreLandings(bands, i);
    BandWidth(bands, i);
    LandingCounted(TotalWeight(bands), rounds, WeightBefore(bands, i), WeightBefore(bands, i + 1), bands[i].weight);
  }

  lemma LandingCounted(total: nat, rounds: nat, lo: nat, hi: nat, width: nat)
    requires total > 0 && lo <= hi <= total && width == hi - lo
    ensures |Landing(total, rounds, lo, hi)| == width * rounds
  {
    hide Landing;
    LandingSize(total, rounds, lo, hi);
  }

  lemma RoundsOfLimit(total: nat)
    requires total > 0
    ensures Limit(total) / total == SPACE / total
    ensures SPACE - Limit(total) == SPACE % total < total
  {
    LimitIsMultiple(total);
    ExactQuotient(SPACE / total, total);
  }

  lemma ExactQuotient(q: nat, d: nat)
    requires d > 0
    ensures d * q / d == q
  {
    assert q * d <= d * q < (q + 1) * d;
    RemainderInRound(d, q, d * q);
    var n := d * q / d;
    assert d * q == n * d;
    if n < q { Multiply(n + 1, q, d); }
    if q < n { Multiply(q + 1, n, d); }
  }

  lemma BandWidth(bands: seq<RewardBand>, i: nat)
    requires ValidBands(bands) && i < |bands|
    ensures 0 <= WeightBefore(bands, i) <= WeightBefore(bands, i + 1) <= TotalWeight(bands)
    ensures WeightBefore(bands, i + 1) - WeightBefore(bands, i) == bands[i].weight
  {
    WeightGrows(bands, 0, i);
    WeightGrows(bands, i, i + 1);
    WeightGrows(bands, i + 1, |bands|);
  }

  lemma DrawsAreLandings(bands: seq<RewardBand>, i: nat)
    requires ValidBands(bands) && i < |bands| && TotalWeight(bands) > 0
    ensures Draws(bands, i) == Landing(TotalWeight(bands), SPACE / TotalWeight(bands), WeightBefore(bands, i), WeightBefore(bands, i + 1))
  {
    hide ValidBands, WeightBefore;
    LimitIsMultiple(TotalWeight(bands));
  }
}
