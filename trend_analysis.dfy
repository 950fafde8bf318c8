/**
 * `calculateTrendAnalysis` (app/lib/analytics-utils.ts:44-83): one metric's
 * series split at its midpoint, the halves' averages compared, and the
 * series' average, maximum and minimum reported.
 */
module TrendAnalysis {
  import opened Wrappers
  import opened JsBuiltins
  import opened AnalyticsTypes

  datatype Trend = Increasing | Decreasing | Stable

  /** An extreme value and the formatted date of the row it first occurs on. */
  datatype Extreme = Extreme(value: int, date: string)

  datatype Analysis = Analysis(
    metric: string,
    trend: Trend,
    percentChange: real,
    average: int,
    max: Extreme,
    min: Extreme)

  /** `data.map((d) => (d[metricKey] as number) || 0)`. */
  function Values(data: seq<ChartPoint>, key: string): (vs: seq<int>)
    ensures |vs| == |data|
    ensures forall i :: 0 <= i < |data| ==> vs[i] == ValueOf(data[i], key) && 0 <= vs[i]
  {
    seq(|data|, i requires 0 <= i < |data| => ValueOf(data[i], key) as int)
  }

  /** The arithmetic mean of a non-empty list. */
  function Average(s: seq<int>): real
    requires s != []
  {
    Sum(s) as real / |s| as real
  }

  /** The relative change in percent, defined as 0 when the base is 0. */
  function PercentChange(base: real, current: real): real
  {
    if base == 0.0 then 0.0 else (current - base) / base * 100.0
  }

  /** The strict +/-5 percent thresholds. */
  function Classify(percentChange: real): Trend
  {
    if percentChange > 5.0 then Increasing
    else if percentChange < -5.0 then Decreasing
    else Stable
  }

  /** `Math.max(...s)`. */
  function MaxOf(s: seq<int>): int
    requires s != []
  {
    if |s| == 1 then s[0]
    else
      var rest := MaxOf(s[..|s| - 1]);
      if s[|s| - 1] > rest then s[|s| - 1] else rest
  }

  /** The maximum is one of the elements and no element exceeds it. */
  lemma {:induction false} MaxOfIsMax(s: seq<int>)
    requires s != []
    ensures MaxOf(s) in s
    ensures forall i :: 0 <= i < |s| ==> s[i] <= MaxOf(s)
  {
    if |s| > 1 {
      MaxOfIsMax(s[..|s| - 1]);
      assert s == s[..|s| - 1] + [s[|s| - 1]];
    }
  }

  /** `Math.min(...s)`. */
  function MinOf(s: seq<int>): int
    requires s != []
  {
    if |s| == 1 then s[0]
    else
      var rest := MinOf(s[..|s| - 1]);
      if s[|s| - 1] < rest then s[|s| - 1] else rest
  }

  /** The minimum is one of the elements and no element is below it. */
  lemma {:induction false} MinOfIsMin(s: seq<int>)
    requires s != []
    ensures MinOf(s) in s
    ensures forall i :: 0 <= i < |s| ==> MinOf(s) <= s[i]
  {
    if |s| > 1 {
      MinOfIsMin(s[..|s| - 1]);
      assert s == s[..|s| - 1] + [s[|s| - 1]];
    }
  }

  /** `s.indexOf(x)` for an element that occurs: a position holding it. */
  function FirstIndex(s: seq<int>, x: int): (i: nat)
    requires x in s
    ensures i < |s| && s[i] == x
  {
    if s[0] == x then 0 else 1 + FirstIndex(s[1..], x)
  }

  /** No position before the one `FirstIndex` returns holds the element. */
  lemma {:induction false} FirstIndexIsFirst(s: seq<int>, x: int)
    requires x in s
    ensures forall j :: 0 <= j < FirstIndex(s, x) ==> s[j] != x
  {
    if s[0] != x {
      FirstIndexIsFirst(s[1..], x);
      forall j | 0 <= j < FirstIndex(s, x) ensures s[j] != x {
        if j > 0 {
          assert s[j] == s[1..][j - 1];
        }
      }
    }
  }

  /**
   * The first half is the first |vs|/2 values, the second half the rest; the
   * change is the second half's average relative to the first's.
   */
  function HalfChange(vs: seq<int>): real
    requires |vs| >= 2
  {
    var half := |vs| / 2;
    var firstHalf := Slice(vs, 0, half);
    var secondHalf := Slice(vs, half, |vs|);
    PercentChange(Average(firstHalf), Average(secondHalf))
  }

  /** `calculateTrendAnalysis(data, metricKey)`; `None` stands for `null`. */
  function CalculateTrendAnalysis(data: seq<ChartPoint>, key: string): (r: Option<Analysis>)
    ensures r.None? <==> |data| < 2
    ensures r.Some? ==> r.value.metric == key
  {
    if |data| < 2 then None
    else
      var vs := Values(data, key);
      var change := HalfChange(vs);
      var maxValue := MaxOf(vs);
      var minValue := MinOf(vs);
      MaxOfIsMax(vs);
      MinOfIsMin(vs);
      Some(Analysis(
        key,
        Classify(change),
        Round(change * 10.0) as real / 10.0,
        Round(Average(vs)),
        Extreme(maxValue, data[FirstIndex(vs, maxValue)].formattedDate),
        Extreme(minValue, data[FirstIndex(vs, minValue)].formattedDate)))
  }

  // Properties

  /** Sum of the first half of the series: its first |data|/2 values. */
  function FirstHalfSum(data: seq<ChartPoint>, key: string): int
  {
    Sum(Values(data, key)[..|data| / 2])
  }

  /** Sum of the second half of the series: the values from index |data|/2 on. */
  function SecondHalfSum(data: seq<ChartPoint>, key: string): int
  {
    Sum(Values(data, key)[|data| / 2..])
  }

  /** The halves the function compares are the first |data|/2 values and the rest, both non-empty. */
  lemma HalvesSplitSeries(data: seq<ChartPoint>, key: string)
    requires |data| >= 2
    ensures var vs := Values(data, key);
            Slice(vs, 0, |vs| / 2) == vs[..|data| / 2] && Slice(vs, |vs| / 2, |vs|) == vs[|data| / 2..] &&
            1 <= |data| / 2 < |data| && vs[..|data| / 2] + vs[|data| / 2..] == vs
  {
  }

  /** A percent change over a positive base exceeds (or falls short of) t exactly when the difference times 100 does t times the base. */
  lemma PercentAgainst(base: real, current: real, t: real)
    requires base > 0.0
    ensures PercentChange(base, current) > t <==> (current - base) * 100.0 > t * base
    ensures PercentChange(base, current) < t <==> (current - base) * 100.0 < t * base
  {
    assert (current - base) / base * 100.0 == (current - base) * 100.0 / base;
    QuotientCompare((current - base) * 100.0, base, t);
  }

  /** Scaled averages s2/m and s1/h compare as the cross-multiplied sums do. */
  lemma AveragesAgainst(s1: int, h: int, s2: int, m: int, c1: int, c2: int)
    requires h > 0 && m > 0
    ensures var d := c2 as real * (s2 as real / m as real) - c1 as real * (s1 as real / h as real);
            (d > 0.0 <==> c2 * h * s2 > c1 * m * s1) && (d < 0.0 <==> c2 * h * s2 < c1 * m * s1)
  {
    var a1, a2 := s1 as real / h as real, s2 as real / m as real;
    var k := (h * m) as real;
    var n := c2 * h * s2 - c1 * m * s1;
    assert a1 * h as real == s1 as real && a2 * m as real == s2 as real;
    assert (c2 as real) * a2 * k == (c2 * h * s2) as real;
    assert (c1 as real) * a1 * k == (c1 * m * s1) as real;
    assert (c2 as real * a2 - c1 as real * a1) * k == n as real;
    QuotientCompare(n as real, k, 0.0);
  }

  /** The classification of two half sums, in integer terms. */
  lemma {:induction false} ClassifyHalves(s1: int, h: int, s2: int, m: int)
    requires 0 <= s1 && 0 <= s2 && 0 < h && 0 < m
    ensures var t := Classify(PercentChange(s1 as real / h as real, s2 as real / m as real));
            (t == Increasing <==> s1 > 0 && 20 * h * s2 > 21 * m * s1) &&
            (t == Decreasing <==> 20 * h * s2 < 19 * m * s1)
  {
    var a1, a2 := s1 as real / h as real, s2 as real / m as real;
    if s1 > 0 {
      assert a1 > 0.0;
      PercentAgainst(a1, a2, 5.0);
      PercentAgainst(a1, a2, -5.0);
      AveragesAgainst(s1, h, s2, m, 105, 100);
      AveragesAgainst(s1, h, s2, m, 95, 100);
    } else {
      assert a1 == 0.0;
      assert 0 <= 20 * h * s2;
    }
  }

  /** The change the function classifies and rounds is the percent change of the two half averages. */
  lemma RawChange(data: seq<ChartPoint>, key: string)
    requires |data| >= 2
    ensures var r := CalculateTrendAnalysis(data, key).value;
            var change := HalfChange(Values(data, key));
            r.trend == Classify(change) && r.percentChange == Round(change * 10.0) as real / 10.0
  {
  }

  lemma HalfChangeSums(data: seq<ChartPoint>, key: string)
    requires |data| >= 2
    ensures HalfChange(Values(data, key)) ==
              PercentChange(FirstHalfSum(data, key) as real / (|data| / 2) as real,
                            SecondHalfSum(data, key) as real / (|data| - |data| / 2) as real)
    ensures 0 <= FirstHalfSum(data, key) && 0 <= SecondHalfSum(data, key)
  {
    var vs := Values(data, key);
    HalvesSplitSeries(data, key);
    SumNonNegative(vs[..|data| / 2]);
    SumNonNegative(vs[|data| / 2..]);
  }

  /**
   * The trend in integer terms. With h = |data|/2 first-half values summing
   * to S1 and m = |data| - h second-half values summing to S2, the series is
   * increasing iff S1 > 0 and 20·h·S2 > 21·m·S1 (the second average more
   * than 105% of the first), decreasing iff 20·h·S2 < 19·m·S1 (less than
   * 95%), and stable otherwise; a zero first half is stable with change 0.
   */
  lemma TrendClassification(data: seq<ChartPoint>, key: string)
    requires |data| >= 2
    ensures var r := CalculateTrendAnalysis(data, key).value;
            var h, m := |data| / 2, |data| - |data| / 2;
            var s1, s2 := FirstHalfSum(data, key), SecondHalfSum(data, key);
            (r.trend == Increasing <==> s1 > 0 && 20 * h * s2 > 21 * m * s1) &&
            (r.trend == Decreasing <==> 20 * h * s2 < 19 * m * s1) &&
            (s1 == 0 ==> r.trend == Stable && r.percentChange == 0.0)
  {
    var h, m := |data| / 2, |data| - |data| / 2;
    var s1, s2 := FirstHalfSum(data, key), SecondHalfSum(data, key);
    var r := CalculateTrendAnalysis(data, key).value;
    var change := HalfChange(Values(data, key));
    assert r.trend == Classify(change) && r.percentChange == Round(change * 10.0) as real / 10.0 by {
      RawChange(data, key);
    }
    assert change == PercentChange(s1 as real / h as real, s2 as real / m as real) && 0 <= s1 && 0 <= s2 by {
      HalfChangeSums(data, key);
    }
    AnalysisOfHalves(r, s1, h, s2, m);
  }

  /** An analysis whose trend and rounded change come from two half sums, classified in integer terms. */
  lemma AnalysisOfHalves(r: Analysis, s1: int, h: int, s2: int, m: int)
    requires 0 <= s1 && 0 <= s2 && 0 < h && 0 < m
    requires var change := PercentChange(s1 as real / h as real, s2 as real / m as real);
             r.trend == Classify(change) && r.percentChange == Round(change * 10.0) as real / 10.0
    ensures (r.trend == Increasing <==> s1 > 0 && 20 * h * s2 > 21 * m * s1) &&
            (r.trend == Decreasing <==> 20 * h * s2 < 19 * m * s1) &&
            (s1 == 0 ==> r.trend == Stable && r.percentChange == 0.0)
  {
    ClassifyHalves(s1, h, s2, m);
  }

  /** Rounding to tenths lands on a whole number of tenths within half a tenth. */
  lemma RoundTenths(x: real)
    ensures var y := Round(x * 10.0) as real / 10.0;
            (y * 10.0).Floor as real == y * 10.0 && x - 1.0 / 20.0 < y <= x + 1.0 / 20.0
  {
    var k := Round(x * 10.0);
    assert (k as real / 10.0) * 10.0 == k as real;
  }

  /**
   * The exact percent change of the second half's average over the first's,
   * for h first-half values summing to S1 > 0 and m second-half values
   * summing to S2: (h·S2 − m·S1)·100 / (m·S1).
   */
  function ExactChange(s1: int, h: int, s2: int, m: int): real
    requires s1 > 0 && h > 0 && m > 0
  {
    ((h * s2 - m * s1) * 100) as real / (m * s1) as real
  }

  /**
   * The reported change is the exact percent change (h·S2 − m·S1)·100 / (m·S1)
   * rounded to one decimal: a whole number of tenths within half a tenth of
   * it.
   */
  lemma PercentChangeRounded(data: seq<ChartPoint>, key: string)
    requires |data| >= 2
    ensures var r := CalculateTrendAnalysis(data, key).value;
            var h, m := |data| / 2, |data| - |data| / 2;
            var s1, s2 := FirstHalfSum(data, key), SecondHalfSum(data, key);
            (r.percentChange * 10.0).Floor as real == r.percentChange * 10.0 &&
            (s1 > 0 ==>
               var exact := ExactChange(s1, h, s2, m);
               exact - 1.0 / 20.0 < r.percentChange <= exact + 1.0 / 20.0)
  {
    var h, m := |data| / 2, |data| - |data| / 2;
    var s1, s2 := FirstHalfSum(data, key), SecondHalfSum(data, key);
    var r := CalculateTrendAnalysis(data, key).value;
    var change := HalfChange(Values(data, key));
    assert r.percentChange == Round(change * 10.0) as real / 10.0 by {
      RawChange(data, key);
    }
    assert change == PercentChange(s1 as real / h as real, s2 as real / m as real) && 0 <= s1 by {
      HalfChangeSums(data, key);
    }
    RoundedHalves(s1, h, s2, m);
  }

  /** The rounding to tenths of the change of two half averages, in terms of the half sums. */
  lemma RoundedHalves(s1: int, h: int, s2: int, m: int)
    requires 0 <= s1 && 0 < h && 0 < m
    ensures var y := Round(PercentChange(s1 as real / h as real, s2 as real / m as real) * 10.0) as real / 10.0;
            (y * 10.0).Floor as real == y * 10.0 &&
            (s1 > 0 ==>
               var exact := ExactChange(s1, h, s2, m);
               exact - 1.0 / 20.0 < y <= exact + 1.0 / 20.0)
  {
    RoundTenths(PercentChange(s1 as real / h as real, s2 as real / m as real));
    if s1 > 0 {
      ExactPercent(s1, h, s2, m);
    }
  }

  lemma ExactPercent(s1: int, h: int, s2: int, m: int)
    requires s1 > 0 && h > 0 && m > 0
    ensures PercentChange(s1 as real / h as real, s2 as real / m as real) == ExactChange(s1, h, s2, m)
  {
    var a1, a2 := s1 as real / h as real, s2 as real / m as real;
    assert a1 * h as real == s1 as real;
    assert a2 * m as real == s2 as real;
    var p := (a2 - a1) / a1 * 100.0;
    var d := (m * s1) as real;
    assert p * a1 == (a2 - a1) * 100.0;
    assert p * a1 * (h * m) as real == (a2 - a1) * 100.0 * (h * m) as real;
    assert p * d == ((h * s2 - m * s1) * 100) as real;
  }

  /**
   * The extremes are the largest and smallest values of the series (absent
   * values read as 0), each dated by the first row that holds it.
   */
  lemma ExtremesFirstOccurrence(data: seq<ChartPoint>, key: string)
    requires |data| >= 2
    ensures var r := CalculateTrendAnalysis(data, key).value;
            (forall i :: 0 <= i < |data| ==> ValueOf(data[i], key) <= r.max.value) &&
            (exists i :: 0 <= i < |data| && ValueOf(data[i], key) == r.max.value &&
               r.max.date == data[i].formattedDate &&
               forall j :: 0 <= j < i ==> ValueOf(data[j], key) < r.max.value) &&
            (forall i :: 0 <= i < |data| ==> r.min.value <= ValueOf(data[i], key)) &&
            (exists i :: 0 <= i < |data| && ValueOf(data[i], key) == r.min.value &&
               r.min.date == data[i].formattedDate &&
               forall j :: 0 <= j < i ==> r.min.value < ValueOf(data[j], key))
  {
    var vs := Values(data, key);
    var r := CalculateTrendAnalysis(data, key).value;
    MaxOfIsMax(vs);
    MinOfIsMin(vs);
    var iMax, iMin := FirstIndex(vs, MaxOf(vs)), FirstIndex(vs, MinOf(vs));
    FirstIndexIsFirst(vs, MaxOf(vs));
    FirstIndexIsFirst(vs, MinOf(vs));
    assert r.max == Extreme(vs[iMax], data[iMax].formattedDate);
    assert r.min == Extreme(vs[iMin], data[iMin].formattedDate);
  }

  /** The mean of a non-empty list lies between any lower and upper bound of its elements. */
  lemma MeanBounds(vs: seq<int>, lo: int, hi: int)
    requires vs != []
    requires forall i :: 0 <= i < |vs| ==> lo <= vs[i] <= hi
    ensures lo as real <= Average(vs) <= hi as real
  {
    SumBounds(vs, lo, hi);
    QuotientBounds(Sum(vs), |vs|, lo, hi);
  }

  lemma QuotientBounds(total: int, n: int, lo: int, hi: int)
    requires 0 < n && n * lo <= total <= n * hi
    ensures lo as real <= total as real / n as real <= hi as real
  {
    var q := total as real / n as real;
    assert q * n as real == total as real;
    assert (n * lo) as real == lo as real * n as real;
    assert (n * hi) as real == hi as real * n as real;
  }

  /** The rounded mean of a non-empty list lies between its minimum and maximum. */
  lemma RoundedMeanBetween(vs: seq<int>)
    requires vs != []
    ensures MinOf(vs) <= Round(Average(vs)) <= MaxOf(vs)
  {
    var lo, hi := MinOf(vs), MaxOf(vs);
    var mean := Average(vs);
    MaxOfIsMax(vs);
    MinOfIsMin(vs);
    MeanBounds(vs, lo, hi);
    RoundMonotone(lo as real, mean);
    RoundMonotone(mean, hi as real);
    assert Round(lo as real) == lo;
    assert Round(hi as real) == hi;
  }

  /** The reported average is the rounded mean, so it lies between the minimum and the maximum. */
  lemma AverageBetweenExtremes(data: seq<ChartPoint>, key: string)
    requires |data| >= 2
    ensures var r := CalculateTrendAnalysis(data, key).value;
            var mean := Sum(Values(data, key)) as real / |data| as real;
            mean - 1.0 / 2.0 < r.average as real <= mean + 1.0 / 2.0 &&
            r.min.value <= r.average <= r.max.value
  {
    var vs := Values(data, key);
    var r := CalculateTrendAnalysis(data, key).value;
    assert r.average == Round(Average(vs));
    assert r.min.value == MinOf(vs) && r.max.value == MaxOf(vs);
    RoundedMeanBetween(vs);
  }
}
