/** `get_current_threshold` (py/control.py:143-153): the base threshold scaled
    by the factor the scaling list holds for today. */
module Threshold {
  import opened Numeric

  /** `localtime().tm_yday`: the day of the year, 1 on 1 January. */
  type DayOfYear = d: int | 1 <= d <= 366 witness 1

  /** `scaling_factors[yday]`, or 1 when that lookup raises (the list is
      shorter than `yday + 1`). The day is used as the list index as it is,
      so entry 0 of the list belongs to no day. */
  function ScalingFactor(factors: seq<real>, yday: DayOfYear): (f: real)
    ensures |factors| <= yday ==> f == 1.0
    ensures f == 1.0 || (factors != [] && f in factors[1..])
  {
    if yday < |factors| then factors[yday] else 1.0
  }

  /** `int(threshold * scaling_factor)`. Without an entry for the day the
      threshold is the base threshold exactly; with one, it is the scaled
      base truncated toward zero. */
  function CurrentThreshold(base: int, factors: seq<real>, yday: DayOfYear): (t: int)
    ensures |factors| <= yday ==> t == base
    ensures yday < |factors| && 0.0 <= base as real * factors[yday] ==>
      0 <= t && t as real <= base as real * factors[yday] < t as real + 1.0
    ensures yday < |factors| && base as real * factors[yday] < 0.0 ==>
      t <= 0 && t as real - 1.0 < base as real * factors[yday] <= t as real
  {
    var scaled := base as real * ScalingFactor(factors, yday);
    Trunc(scaled)
  }

  /** The first entry of the list never influences any threshold. */
  lemma FirstEntryIgnored(base: int, factors: seq<real>, other: real, yday: DayOfYear)
    requires factors != []
    ensures CurrentThreshold(base, [other] + factors[1..], yday) == CurrentThreshold(base, factors, yday)
  {
  }

  /** A larger factor for the day never lowers the threshold of a
      non-negative base. */
  lemma ThresholdMonotone(base: int, factors: seq<real>, other: seq<real>, yday: DayOfYear)
    requires 0 <= base && yday < |factors| && yday < |other| && factors[yday] <= other[yday]
    ensures CurrentThreshold(base, factors, yday) <= CurrentThreshold(base, other, yday)
  {
    var x, y := base as real * factors[yday], base as real * other[yday];
    ScaleMonotone(base as real, factors[yday], other[yday]);
    assert x <= y;
    var t, u := CurrentThreshold(base, factors, yday), CurrentThreshold(base, other, yday);
    // Each threshold lies within one unit of its scaled value, on the side of zero.
    if 0.0 <= x {
      assert t as real <= x <= y < u as real + 1.0;
    } else if 0.0 <= y {
      assert t <= 0 <= u;
    } else {
      assert t as real - 1.0 < x <= y <= u as real;
    }
  }

  lemma ScaleMonotone(b: real, f: real, g: real)
    requires 0.0 <= b && f <= g
    ensures b * f <= b * g
  {
    assert b * g - b * f == b * (g - f);
  }

  /** Non-negative factors keep a non-negative base threshold non-negative. */
  lemma ThresholdNonNegative(base: int, factors: seq<real>, yday: DayOfYear)
    requires 0 <= base
    requires forall k :: 0 <= k < |factors| ==> 0.0 <= factors[k]
    ensures 0 <= CurrentThreshold(base, factors, yday)
  {
  }

  /** The shipped base threshold (1200 W) on a day with factor 1.0 stays 1200 W,
      and a factor of 0.5 halves it. */
  lemma ThresholdExamples(factors: seq<real>, yday: DayOfYear)
    requires yday < |factors|
    ensures factors[yday] == 1.0 ==> CurrentThreshold(1200, factors, yday) == 1200
    ensures factors[yday] == 0.5 ==> CurrentThreshold(1200, factors, yday) == 600
  {
  }
}
