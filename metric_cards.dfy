/**
 * The summary cards (app/components/MetricCards.tsx:37-71): one card per
 * main metric present in the response, each with a short-term trend that
 * compares the last three buckets with the three before them.
 */
module MetricCards {
  import opened Wrappers
  import opened JsBuiltins
  import opened AnalyticsTypes
  import opened Constants
  import opened MetricLookup

  datatype Direction = Up | Down | Stable

  /** A card's trend: its direction and the rounded percent change. */
  datatype CardTrend = CardTrend(trend: Direction, change: int)

  /** `buckets.map((b) => b.doc_count)`. */
  function Counts(buckets: seq<Bucket>): (cs: seq<int>)
    ensures |cs| == |buckets|
    ensures forall i :: 0 <= i < |buckets| ==> cs[i] == buckets[i].docCount
  {
    seq(|buckets|, i requires 0 <= i < |buckets| => buckets[i].docCount as int)
  }

  /**
   * `calculateTrend(buckets)`: each window's sum is divided by 3 whatever
   * the window's length; a zero previous average, like a series of fewer
   * than two buckets, is stable with no change.
   */
  function CalculateTrend(buckets: seq<Bucket>): (r: CardTrend)
    ensures |buckets| < 2 ==> r == CardTrend(Stable, 0)
  {
    if |buckets| < 2 then CardTrend(Stable, 0)
    else
      var counts := Counts(buckets);
      var recent := Sum(Slice(counts, -3, |counts|)) as real / 3.0;
      var previous := Sum(Slice(counts, -6, -3)) as real / 3.0;
      if previous == 0.0 then CardTrend(Stable, 0)
      else
        var change := (recent - previous) / previous * 100.0;
        var trend := if change > 5.0 then Up else if change < -5.0 then Down else Stable;
        CardTrend(trend, Round(change))
  }

  /** The sum of the last three counts (all of them when there are fewer). */
  function RecentSum(buckets: seq<Bucket>): int
  {
    var n := |buckets|;
    Sum(Counts(buckets)[if n < 3 then 0 else n - 3..])
  }

  /** The sum of the up to three counts before the last three. */
  function PreviousSum(buckets: seq<Bucket>): int
  {
    var n := |buckets|;
    Sum(Counts(buckets)[if n < 6 then 0 else n - 6..if n < 3 then 0 else n - 3])
  }

  /** The windows are the last three counts and the three before them, clipped at the start. */
  lemma Windows(buckets: seq<Bucket>)
    ensures var counts, n := Counts(buckets), |buckets|;
            Sum(Slice(counts, -3, n)) == RecentSum(buckets) &&
            Sum(Slice(counts, -6, -3)) == PreviousSum(buckets) &&
            0 <= RecentSum(buckets) && 0 <= PreviousSum(buckets)
  {
    var counts, n := Counts(buckets), |buckets|;
    assert Slice(counts, -3, n) == counts[if n < 3 then 0 else n - 3..];
    assert Slice(counts, -6, -3) == counts[if n < 6 then 0 else n - 6..if n < 3 then 0 else n - 3];
    SumNonNegative(counts[if n < 3 then 0 else n - 3..]);
    SumNonNegative(counts[if n < 6 then 0 else n - 6..if n < 3 then 0 else n - 3]);
  }

  /** The change of two window sums: the divisions by 3 cancel. */
  lemma ChangeOfSums(recent: int, previous: int)
    requires previous > 0
    ensures var r, p := recent as real / 3.0, previous as real / 3.0;
            (r - p) / p * 100.0 == ((recent - previous) * 100) as real / previous as real
  {
    var r, p := recent as real / 3.0, previous as real / 3.0;
    var q := (r - p) / p;
    assert q * p == r - p;
    assert q * previous as real == (recent - previous) as real;
  }

  /** The thresholds of +/-5 percent in integer terms. */
  lemma ChangeCompare(recent: int, previous: int)
    requires previous > 0
    ensures var change := ((recent - previous) * 100) as real / previous as real;
            (change > 5.0 <==> 20 * recent > 21 * previous) &&
            (change < -5.0 <==> 20 * recent < 19 * previous)
  {
    var num, den := ((recent - previous) * 100) as real, previous as real;
    QuotientCompare(num, den, 5.0);
    QuotientCompare(num, den, -5.0);
  }

  /**
   * The card trend in integer terms of the two window sums R (last three
   * counts) and P (the three before): stable with change 0 when P is 0,
   * otherwise up iff 20·R > 21·P, down iff 20·R < 19·P, with the change
   * (R − P)·100 / P rounded to the nearest integer.
   */
  lemma TrendOfWindows(buckets: seq<Bucket>)
    requires |buckets| >= 2
    ensures var r, rSum, pSum := CalculateTrend(buckets), RecentSum(buckets), PreviousSum(buckets);
            (pSum == 0 ==> r == CardTrend(Stable, 0)) &&
            (pSum > 0 ==>
               (r.trend == Up <==> 20 * rSum > 21 * pSum) &&
               (r.trend == Down <==> 20 * rSum < 19 * pSum) &&
               r.change == Round(((rSum - pSum) * 100) as real / pSum as real))
  {
    Windows(buckets);
    var rSum, pSum := RecentSum(buckets), PreviousSum(buckets);
    if pSum > 0 {
      ChangeOfSums(rSum, pSum);
      ChangeCompare(rSum, pSum);
    }
  }

  /** A series of at most three buckets has no previous window, so it is stable with no change. */
  lemma ShortSeriesStable(buckets: seq<Bucket>)
    requires |buckets| <= 3
    ensures CalculateTrend(buckets) == CardTrend(Stable, 0)
  {
    if |buckets| >= 2 {
      TrendOfWindows(buckets);
      assert Counts(buckets)[0..0] == [];
    }
  }

  /** The metrics that get a card, in display order. */
  const MainMetrics: seq<string> := [
    TotalApplications, TotalMatched, TotalRealized, TotalCompleted, TotalSignup
  ]

  /** One card: the metric, its total, its configured label and colour, and its trend. */
  datatype Card = Card(key: string, total: nat, displayLabel: string, color: string, trend: CardTrend)

  /** The card for one metric, or none when the metric is absent or not configured. */
  function CardFor(a: Analytics, key: string): (c: Option<Card>)
    ensures c.Some? <==> a.Get(key).Some? && FindConfig(MetricConfigs, key).Some?
    ensures c.Some? ==> c.value.key == key && c.value.total == a.DocCount(key) &&
                        c.value.trend == CalculateTrend(ChosenBuckets(a.Get(key).value))
    ensures forall i :: 0 <= i < |MetricConfigs| && MetricConfigs[i].key == key && c.Some? ==>
              c.value.displayLabel == MetricConfigs[i].displayLabel && c.value.color == MetricConfigs[i].color
  {
    ConfigKeysDistinct();
    var config := FindConfig(MetricConfigs, key);
    match a.Get(key)
    case None => None
    case Some(metric) =>
      if config.None? then None
      else
        Some(Card(key, metric.docCount, config.value.displayLabel, config.value.color,
                  CalculateTrend(ChosenBuckets(metric))))
  }

  /**
   * `keys.map(render)` with the `null` results dropped, as React does when
   * rendering the list: the cards of the names that have one, in order.
   */
  function Collect(keys: seq<string>, render: string -> Option<Card>): (cards: seq<Card>)
    requires forall k :: render(k).Some? ==> render(k).value.key == k
    ensures forall i :: 0 <= i < |cards| ==> render(cards[i].key) == Some(cards[i])
  {
    if keys == [] then []
    else
      var rest := Collect(keys[1..], render);
      match render(keys[0])
      case Some(c) => [c] + rest
      case None => rest
  }

  /**
   * The collected cards follow the names in order: their names are the
   * names that pass any test agreeing with "has a card".
   */
  lemma {:induction false} CollectKeys(keys: seq<string>, render: string -> Option<Card>, keep: string -> bool)
    requires forall k :: render(k).Some? ==> render(k).value.key == k
    requires forall i :: 0 <= i < |keys| ==> (render(keys[i]).Some? <==> keep(keys[i]))
    ensures CardKeys(Collect(keys, render)) == Filter(keys, keep)
  {
    if keys != [] {
      CollectKeys(keys[1..], render, keep);
      CollectStep(keys, render, keep);
    }
  }

  /** One step of `CollectKeys`: the head's card and the head's name are kept or dropped together. */
  lemma CollectStep(keys: seq<string>, render: string -> Option<Card>, keep: string -> bool)
    requires keys != []
    requires forall k :: render(k).Some? ==> render(k).value.key == k
    requires render(keys[0]).Some? <==> keep(keys[0])
    requires CardKeys(Collect(keys[1..], render)) == Filter(keys[1..], keep)
    ensures CardKeys(Collect(keys, render)) == Filter(keys, keep)
  {
    var rest := Collect(keys[1..], render);
    var c := render(keys[0]);
    if c.Some? {
      assert Collect(keys, render) == [c.value] + rest;
      CardKeysCons(c.value, rest);
    } else {
      assert Collect(keys, render) == rest;
    }
  }

  lemma CardKeysCons(c: Card, rest: seq<Card>)
    ensures CardKeys([c] + rest) == [c.key] + CardKeys(rest)
  {
  }

  /** The names of the cards, in order. */
  function CardKeys(cards: seq<Card>): seq<string>
  {
    Map(cards, (c: Card) => c.key)
  }

  /** The rendered cards. */
  function Cards(a: Analytics): seq<Card>
  {
    Collect(MainMetrics, (k: string) => CardFor(a, k))
  }

  /** Every main metric is configured, so it has a card exactly when the response holds it. */
  lemma MainMetricsConfigured(a: Analytics)
    ensures forall i :: 0 <= i < |MainMetrics| ==> (CardFor(a, MainMetrics[i]).Some? <==> a.Get(MainMetrics[i]).Some?)
  {
    ConfigKeysDistinct();
    forall i | 0 <= i < |MainMetrics| ensures FindConfig(MetricConfigs, MainMetrics[i]).Some? {
      assert MainMetrics[i] in ConfigKeys(MetricConfigs);
    }
  }

  /**
   * The cards are exactly the main metrics present in the response, in
   * display order.
   */
  lemma CardsForPresentMainMetrics(a: Analytics)
    ensures CardKeys(Cards(a)) == Filter(MainMetrics, (k: string) => a.Get(k).Some?)
  {
    MainMetricsConfigured(a);
    CollectKeys(MainMetrics, (k: string) => CardFor(a, k), (k: string) => a.Get(k).Some?);
  }

  /**
   * Each card shows its metric's total, its configured label and colour, and
   * the trend of the metric's chosen bucket collection.
   */
  lemma CardContents(a: Analytics)
    ensures forall i :: 0 <= i < |Cards(a)| ==>
              var c := Cards(a)[i];
              a.Get(c.key).Some? && c.total == a.DocCount(c.key) &&
              c.displayLabel == GetMetricLabel(c.key) && c.color == GetMetricColor(c.key) &&
              c.trend == CalculateTrend(ChosenBuckets(a.Get(c.key).value))
  {
    forall i | 0 <= i < |Cards(a)|
      ensures GetMetricLabel(Cards(a)[i].key) == Cards(a)[i].displayLabel
      ensures GetMetricColor(Cards(a)[i].key) == Cards(a)[i].color
    {
      var c := Cards(a)[i];
      assert CardFor(a, c.key) == Some(c);
      var j :| 0 <= j < |MetricConfigs| && MetricConfigs[j].key == c.key;
    }
  }
}
