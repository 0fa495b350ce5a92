/** The ping-quality pipeline of py_ping2hue.py: a window of ping samples is
    aggregated into a MultiPingResult, reduced to a quality score in [0, 1]
    and mapped to a Hue hue and brightness.

    A sample is `Some(seconds)` or `None` (the ping timed out). Floating point
    is modelled by exact reals; Python's `int(...)` by truncation toward zero. */
module PingQuality {
  import opened Wrappers

  /** Hue of a perfect connection: a third of the hue wheel, shifted 3000 towards cyan. */
  const HUE_VAL_GREEN: int := 65535 / 3 + 3000
  /** Hue of a useless connection. */
  const HUE_VAL_RED: int := 0
  /** Brightness of a useless connection (the better the quality, the dimmer the light). */
  const MAX_BRI: int := 128
  /** Mean response time reported when every ping of the window is lost. */
  const ALL_LOST_MEAN: real := 9999.0

  datatype MultiPingResult = MultiPingResult(pingAttempts: nat, meanResponseTime: real, lostPackets: nat)

  /** The `ping_range` section of the configuration. */
  datatype PingRange = PingRange(green: real, red: real, lossFactor: real)

  /** `if not p`: a missing answer and a zero round-trip time are both falsy, so both count as lost. */
  predicate IsLost(p: Option<real>): (lost: bool)
    ensures !lost <==> exists t :: t != 0.0 && p == Some(t)
  {
    p.None? || p.value == 0.0
  }

  // ---------------------------------------------------------------------------
  // Aggregation (collect_pings)
  // ---------------------------------------------------------------------------

  /** Number of lost samples in the window. */
  function LostCount(samples: seq<Option<real>>): (n: nat)
    ensures n <= |samples|
  {
    if samples == [] then 0
    else LostCount(samples[..|samples| - 1]) + (if IsLost(samples[|samples| - 1]) then 1 else 0)
  }

  /** Number of samples that were not lost. */
  function SuccessCount(samples: seq<Option<real>>): nat
  {
    |samples| - LostCount(samples)
  }

  /** Sum of the round-trip times of the samples that were not lost. */
  function SuccessSum(samples: seq<Option<real>>): real
  {
    if samples == [] then 0.0
    else SuccessSum(samples[..|samples| - 1]) + (if IsLost(samples[|samples| - 1]) then 0.0 else samples[|samples| - 1].value)
  }

  /** The MultiPingResult of a window: one attempt per sample, the mean over the
      successful samples, the sentinel when none succeeded. */
  function Aggregate(samples: seq<Option<real>>): (r: MultiPingResult)
    ensures r.pingAttempts == |samples| && r.lostPackets <= r.pingAttempts
    ensures r.lostPackets == r.pingAttempts ==> r.meanResponseTime == ALL_LOST_MEAN
  {
    var lost := LostCount(samples);
    MultiPingResult(
      |samples|,
      if lost < |samples| then SuccessSum(samples) / (|samples| - lost) as real else ALL_LOST_MEAN,
      lost)
  }

  /** collect_pings, with the pings already taken: `samples[i]` is the outcome of the i-th ping. */
  method CollectPings(samples: seq<Option<real>>) returns (r: MultiPingResult)
    ensures r == Aggregate(samples)
  {
    var totalTime := 0.0;
    var losses: nat := 0;
    for i := 0 to |samples|
      invariant totalTime == SuccessSum(samples[..i])
      invariant losses == LostCount(samples[..i])
    {
      var p := samples[i];
      assert samples[..i + 1][..i] == samples[..i];
      if IsLost(p) {
        losses := losses + 1;
        continue;
      }
      totalTime := totalTime + p.value;
    }
    assert samples[..|samples|] == samples;
    var meanTime;
    if losses < |samples| {
      meanTime := totalTime / (|samples| - losses) as real;
    } else {
      meanTime := ALL_LOST_MEAN;
    }
    r := MultiPingResult(|samples|, meanTime, losses);
  }

  /** The indices of the lost samples. */
  ghost function LostIndices(samples: seq<Option<real>>): set<int>
  {
    set i | 0 <= i < |samples| && IsLost(samples[i])
  }

  /** The lost count is the number of positions holding a falsy sample. */
  lemma {:induction false} LostCountIsLostIndices(samples: seq<Option<real>>)
    ensures LostCount(samples) == |LostIndices(samples)|
  {
    if samples != [] {
      var n := |samples|;
      var prefix := samples[..n - 1];
      LostCountIsLostIndices(prefix);
      assert n - 1 !in LostIndices(prefix);
      if IsLost(samples[n - 1]) {
        assert LostIndices(samples) == LostIndices(prefix) + {n - 1};
      } else {
        assert LostIndices(samples) == LostIndices(prefix);
      }
    }
  }

  /** Every sample of the window is lost exactly when the lost count equals the number of attempts. */
  lemma {:induction false} AllLostIffLostCountFull(samples: seq<Option<real>>)
    ensures (forall i :: 0 <= i < |samples| ==> IsLost(samples[i])) <==> LostCount(samples) == |samples|
  {
    if samples != [] {
      var n := |samples|;
      var prefix := samples[..n - 1];
      AllLostIffLostCountFull(prefix);
      assert forall i :: 0 <= i < n - 1 ==> prefix[i] == samples[i];
    }
  }

  /** `n` copies of `a` added up. */
  function Times(a: real, n: nat): real
  {
    if n == 0 then 0.0 else Times(a, n - 1) + a
  }

  lemma {:induction false} TimesIsProduct(a: real, n: nat)
    ensures Times(a, n) == a * n as real
  {
    if n > 0 {
      TimesIsProduct(a, n - 1);
      assert a * n as real == a * (n - 1) as real + a;
    }
  }

  /** Bounds on the success sum, given bounds on each successful sample. */
  lemma {:induction false} SuccessSumBounds(samples: seq<Option<real>>, lo: real, hi: real)
    requires forall i :: 0 <= i < |samples| && !IsLost(samples[i]) ==> lo <= samples[i].value <= hi
    ensures Times(lo, SuccessCount(samples)) <= SuccessSum(samples) <= Times(hi, SuccessCount(samples))
  {
    if samples != [] {
      var n := |samples|;
      var prefix := samples[..n - 1];
      SuccessSumBounds(prefix, lo, hi);
    }
  }

  /** The mean response time of a window with at least one successful sample lies
      between the smallest and the largest successful sample. */
  lemma MeanWithinSuccessfulSamples(samples: seq<Option<real>>, lo: real, hi: real)
    requires LostCount(samples) < |samples|
    requires forall i :: 0 <= i < |samples| && !IsLost(samples[i]) ==> lo <= samples[i].value <= hi
    ensures lo <= Aggregate(samples).meanResponseTime <= hi
  {
    var k := SuccessCount(samples);
    var sum := SuccessSum(samples);
    assert Aggregate(samples).meanResponseTime == sum / k as real;
    SuccessSumBounds(samples, lo, hi);
    AverageBounds(sum, k, lo, hi);
  }

  lemma AverageBounds(sum: real, k: nat, lo: real, hi: real)
    requires 0 < k && Times(lo, k) <= sum <= Times(hi, k)
    ensures lo <= sum / k as real <= hi
  {
    TimesIsProduct(lo, k);
    TimesIsProduct(hi, k);
    DivBounds(sum, k as real, lo, hi);
  }

  // ---------------------------------------------------------------------------
  // Quality (calculate_quality)
  // ---------------------------------------------------------------------------

  /** The clamped linear interpolation between the green and the red threshold. */
  function BaseQuality(mean: real, range: PingRange): (b: real)
    ensures 0.0 <= b <= 1.0
  {
    if mean <= range.green then 1.0
    else if mean >= range.red then 0.0
    else
      DivBounds(mean - range.green, range.red - range.green, 0.0, 1.0);
      1.0 - (mean - range.green) / (range.red - range.green)
  }

  /** The penalty for `lost` lost packets: the loss factor, applied once per packet. */
  function LossPenalty(factor: real, lost: nat): (p: real)
    ensures lost == 0 || factor == 1.0 ==> p == 1.0
    ensures lost > 0 && factor == 0.0 ==> p == 0.0
  {
    if lost == 0 then 1.0 else LossPenalty(factor, lost - 1) * factor
  }

  /** The quality of a ping result. */
  function Quality(r: MultiPingResult, range: PingRange): (q: real)
    ensures r.lostPackets == 0 && r.meanResponseTime <= range.green ==> q == 1.0
    ensures range.green < r.meanResponseTime && range.red <= r.meanResponseTime ==> q == 0.0
    ensures 0 < r.lostPackets && range.lossFactor == 0.0 ==> q == 0.0
  {
    BaseQuality(r.meanResponseTime, range) * LossPenalty(range.lossFactor, r.lostPackets)
  }

  /** calculate_quality: interpolate, then multiply by the loss factor once per lost packet. */
  method CalculateQuality(r: MultiPingResult, range: PingRange) returns (quality: real)
    ensures quality == Quality(r, range)
  {
    quality := BaseQuality(r.meanResponseTime, range);
    for i := 0 to r.lostPackets
      invariant quality == BaseQuality(r.meanResponseTime, range) * LossPenalty(range.lossFactor, i)
    {
      quality := quality * range.lossFactor;
    }
  }

  /** Strictly between the thresholds the interpolation is strictly between 0 and 1. */
  lemma BaseQualityStrictlyBetween(mean: real, range: PingRange)
    requires range.green < mean < range.red
    ensures 0.0 < BaseQuality(mean, range) < 1.0
  {
    DivStrictBelow(mean - range.green, range.red - range.green, 1.0);
    DivBounds(mean - range.green, range.red - range.green, 0.0, 1.0);
  }

  /** When the thresholds overlap (red not above green) the green test wins and the
      base score degenerates to a step: 1 up to green, 0 above. */
  lemma OverlappingThresholdsStep(mean: real, range: PingRange)
    requires range.red <= range.green
    ensures BaseQuality(mean, range) == (if mean <= range.green then 1.0 else 0.0)
  {
  }

  /** The base score never increases when the mean response time grows. */
  lemma BaseQualityAntitone(m1: real, m2: real, range: PingRange)
    requires m1 <= m2
    ensures BaseQuality(m2, range) <= BaseQuality(m1, range)
  {
    if range.green < range.red {
      DivMonotone(m1 - range.green, m2 - range.green, range.red - range.green);
    }
  }

  /** With a loss factor in [0, 1] the penalty lies in [0, 1]. */
  lemma {:induction false} LossPenaltyInUnitInterval(factor: real, lost: nat)
    requires 0.0 <= factor <= 1.0
    ensures 0.0 <= LossPenalty(factor, lost) <= 1.0
  {
    if lost > 0 {
      LossPenaltyInUnitInterval(factor, lost - 1);
      var p := LossPenalty(factor, lost - 1);
      assert LossPenalty(factor, lost) == factor * p;
      MulMonotone(0.0, factor, p);
      MulMonotone(factor, 1.0, p);
      assert factor * p <= 1.0 * p;
      assert 1.0 * p == p;
    }
  }

  /** With a non-negative loss factor the penalty is non-negative. */
  lemma {:induction false} LossPenaltyNonNegative(factor: real, lost: nat)
    requires 0.0 <= factor
    ensures 0.0 <= LossPenalty(factor, lost)
  {
    if lost > 0 {
      LossPenaltyNonNegative(factor, lost - 1);
    }
  }

  /** With a loss factor in [0, 1], the quality is in [0, 1], whatever the thresholds. */
  lemma QualityInUnitInterval(r: MultiPingResult, range: PingRange)
    requires 0.0 <= range.lossFactor <= 1.0
    ensures 0.0 <= Quality(r, range) <= 1.0
  {
    var b := BaseQuality(r.meanResponseTime, range);
    var p := LossPenalty(range.lossFactor, r.lostPackets);
    LossPenaltyInUnitInterval(range.lossFactor, r.lostPackets);
    ProductInUnitInterval(b, p);
  }

  /** For a fixed loss count, the quality never increases with the mean response time. */
  lemma QualityAntitoneInMean(r1: MultiPingResult, r2: MultiPingResult, range: PingRange)
    requires 0.0 <= range.lossFactor
    requires r1.lostPackets == r2.lostPackets && r1.meanResponseTime <= r2.meanResponseTime
    ensures Quality(r2, range) <= Quality(r1, range)
  {
    BaseQualityAntitone(r1.meanResponseTime, r2.meanResponseTime, range);
    LossPenaltyNonNegative(range.lossFactor, r1.lostPackets);
    var p := LossPenalty(range.lossFactor, r1.lostPackets);
    var b1 := BaseQuality(r1.meanResponseTime, range);
    var b2 := BaseQuality(r2.meanResponseTime, range);
    ScaledMonotone(Quality(r2, range), Quality(r1, range), b2, b1, p);
  }

  /** With no lost packet the quality is the base score, and every further lost
      packet multiplies the quality by the loss factor once more. */
  lemma QualityCompoundsPerLoss(r: MultiPingResult, range: PingRange)
    ensures Quality(r.(lostPackets := 0), range) == BaseQuality(r.meanResponseTime, range)
    ensures Quality(r.(lostPackets := r.lostPackets + 1), range) == Quality(r, range) * range.lossFactor
  {
    var b := BaseQuality(r.meanResponseTime, range);
    var p := LossPenalty(range.lossFactor, r.lostPackets);
    assert LossPenalty(range.lossFactor, r.lostPackets + 1) == p * range.lossFactor;
    assert b * (p * range.lossFactor) == (b * p) * range.lossFactor;
  }

  /** With a loss factor in [0, 1], one more lost packet never raises the quality. */
  lemma QualityAntitoneInLosses(r: MultiPingResult, range: PingRange)
    requires 0.0 <= range.lossFactor <= 1.0
    ensures Quality(r.(lostPackets := r.lostPackets + 1), range) <= Quality(r, range)
  {
    QualityInUnitInterval(r, range);
    QualityCompoundsPerLoss(r, range);
    ScaledAtMost(Quality(r.(lostPackets := r.lostPackets + 1), range), Quality(r, range), range.lossFactor);
  }

  /** With a non-zero loss factor, any number of lost packets leaves a non-zero penalty. */
  lemma {:induction false} LossPenaltyNonZero(factor: real, lost: nat)
    requires factor != 0.0
    ensures LossPenalty(factor, lost) != 0.0
  {
    if lost > 0 {
      LossPenaltyNonZero(factor, lost - 1);
    }
  }

  /** A window whose every ping is lost reports the sentinel mean, and scores 0 exactly when
      the sentinel lies above green and at or above red, or when some ping was lost under a zero factor. */
  lemma AllLostQualityZero(samples: seq<Option<real>>, range: PingRange)
    requires forall i :: 0 <= i < |samples| ==> IsLost(samples[i])
    ensures Quality(Aggregate(samples), range) == 0.0 <==>
      (range.green < ALL_LOST_MEAN && range.red <= ALL_LOST_MEAN) || (range.lossFactor == 0.0 && 0 < |samples|)
  {
    AllLostIffLostCountFull(samples);
    var r := Aggregate(samples);
    assert r.meanResponseTime == ALL_LOST_MEAN && r.lostPackets == |samples|;
    var b := BaseQuality(ALL_LOST_MEAN, range);
    var p := LossPenalty(range.lossFactor, |samples|);
    if !(range.green < ALL_LOST_MEAN && range.red <= ALL_LOST_MEAN) && !(range.lossFactor == 0.0 && 0 < |samples|) {
      if range.green < ALL_LOST_MEAN {
        BaseQualityStrictlyBetween(ALL_LOST_MEAN, range);
      }
      assert b != 0.0;
      if range.lossFactor != 0.0 {
        LossPenaltyNonZero(range.lossFactor, |samples|);
      }
      assert p != 0.0;
    }
  }

  // ---------------------------------------------------------------------------
  // Mapping to the light (calc_hue, calc_bri)
  // ---------------------------------------------------------------------------

  /** Python's `int(x)` on a float: truncation toward zero. */
  function Trunc(x: real): (n: int)
    ensures 0.0 <= x ==> n as real <= x < n as real + 1.0
    ensures x < 0.0 ==> n as real - 1.0 < x <= n as real
  {
    if x >= 0.0 then x.Floor else -((-x).Floor)
  }

  lemma TruncMonotone(x: real, y: real)
    requires x <= y
    ensures Trunc(x) <= Trunc(y)
  {
  }

  /** calc_hue: the quality scaled to the hue range, truncated. */
  function CalcHue(quality: real): (hue: int)
    ensures 0.0 <= quality <= 1.0 ==> HUE_VAL_RED <= hue <= HUE_VAL_GREEN
  {
    Trunc(HUE_VAL_GREEN as real * quality + HUE_VAL_RED as real)
  }

  /** calc_bri: the inverted quality scaled to the brightness range, truncated. */
  function CalcBri(quality: real): (bri: int)
    ensures 0.0 <= quality <= 1.0 ==> 0 <= bri <= MAX_BRI
  {
    Trunc(MAX_BRI as real * (1.0 - quality))
  }

  /** A better quality never gives a hue further from green. */
  lemma CalcHueMonotone(q1: real, q2: real)
    requires q1 <= q2
    ensures CalcHue(q1) <= CalcHue(q2)
  {
    MulMonotone(q1, q2, HUE_VAL_GREEN as real);
    TruncMonotone(HUE_VAL_GREEN as real * q1 + HUE_VAL_RED as real, HUE_VAL_GREEN as real * q2 + HUE_VAL_RED as real);
  }

  /** A better quality never gives a brighter light. */
  lemma CalcBriAntitone(q1: real, q2: real)
    requires q1 <= q2
    ensures CalcBri(q2) <= CalcBri(q1)
  {
    TruncMonotone(MAX_BRI as real * (1.0 - q2), MAX_BRI as real * (1.0 - q1));
  }

  /** Perfect quality is full green-cyan and dark; zero quality is red and at full brightness. */
  lemma HueAndBriEndpoints()
    ensures CalcHue(1.0) == 24845 && CalcHue(0.0) == 0
    ensures CalcBri(1.0) == 0 && CalcBri(0.0) == 128
  {
  }

  // ---------------------------------------------------------------------------
  // Real arithmetic the solver needs spelled out
  // ---------------------------------------------------------------------------

  lemma MulMonotone(a: real, b: real, c: real)
    requires a <= b && 0.0 <= c
    ensures a * c <= b * c
  {
  }

  lemma ProductInUnitInterval(a: real, b: real)
    requires 0.0 <= a <= 1.0 && 0.0 <= b <= 1.0
    ensures 0.0 <= a * b <= 1.0
  {
    MulAtMost(a, b);
  }

  lemma MulAtMost(q: real, f: real)
    requires 0.0 <= q && f <= 1.0
    ensures q * f <= q
  {
  }

  lemma ScaledAtMost(x: real, q: real, f: real)
    requires x == q * f && 0.0 <= q && f <= 1.0
    ensures x <= q
  {
    MulAtMost(q, f);
  }

  lemma ScaledMonotone(x: real, y: real, a: real, b: real, c: real)
    requires x == a * c && y == b * c && a <= b && 0.0 <= c
    ensures x <= y
  {
    MulMonotone(a, b, c);
  }

  lemma DivMonotone(a: real, b: real, d: real)
    requires a <= b && 0.0 < d
    ensures a / d <= b / d
  {
  }

  lemma DivBounds(x: real, k: real, lo: real, hi: real)
    requires 0.0 < k && lo * k <= x <= hi * k
    ensures lo <= x / k <= hi
  {
  }

  lemma DivStrictBelow(x: real, k: real, hi: real)
    requires 0.0 < k && x < hi * k
    ensures x / k < hi
  {
  }
}
