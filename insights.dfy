/**
 * `generateInsights` (app/lib/analytics-utils.ts:85-202): seven KPI
 * statements computed from the response totals and from the trends of two
 * series, each ratio defined as 0 when its denominator total is 0.
 */
module Insights {
  import opened Wrappers
  import opened JsBuiltins
  import opened AnalyticsTypes
  import opened TrendAnalysis

  datatype InsightKind = Positive | Negative | Neutral | Warning

  /**
   * One insight: its kind, its title, the number shown as its value (a
   * rate, a ratio or a peak count), the trend change it reports and the
   * formatted date it names.
   */
  datatype Insight = Insight(
    kind: InsightKind,
    title: string,
    value: Option<real>,
    change: Option<real>,
    date: Option<string>)

  /** The titles, in the order the insights are emitted. */
  const InsightTitles: seq<string> := [
    "Conversion Rate", "Completion Rate", "Match Rate", "Applications Trend",
    "Peak Performance", "Approval to Realization", "Engagement Rate"
  ]

  /** A rate exceeds a threshold exactly when the denominator is positive and the cross product does. */
  lemma RateAbove(num: nat, den: nat, scale: nat, t: nat)
    ensures Rate(num, den, scale) > t as real <==> den > 0 && num * scale > t * den
  {
    if den > 0 {
      assert Rate(num, den, scale) == (num * scale) as real / den as real;
      assert (t * den) as real == t as real * den as real;
      QuotientCompare((num * scale) as real, den as real, t as real);
    }
  }

  /** The kind of the applications-trend insight: a rising trend is good news, a falling one a warning. */
  function TrendKind(t: Trend): InsightKind
  {
    match t
    case Increasing => Positive
    case Decreasing => Warning
    case Stable => Neutral
  }

  /** Lines 94-106: realized exchanges per 100 applications; above 1 is positive. */
  function ConversionInsight(realized: nat, apps: nat): (i: Insight)
    ensures i.title == InsightTitles[0] && i.value == Some(Rate(realized, apps, 100))
    ensures i.kind == Positive <==> apps > 0 && realized * 100 > apps
    ensures i.kind != Positive ==> i.kind == Warning
  {
    var conversionRate := Rate(realized, apps, 100);
    RateAbove(realized, apps, 100, 1);
    Insight(if conversionRate > 1.0 then Positive else Warning,
            "Conversion Rate", Some(conversionRate), None, None)
  }

  /** Lines 109-126: finished per 100 realized; above 70 is positive, above 50 neutral, else negative. */
  function CompletionInsight(finished: nat, realized: nat): (i: Insight)
    ensures i.title == InsightTitles[1] && i.value == Some(Rate(finished, realized, 100))
    ensures i.kind == Positive <==> realized > 0 && finished * 100 > 70 * realized
    ensures i.kind == Neutral <==> realized > 0 && 50 * realized < finished * 100 <= 70 * realized
    ensures i.kind == Negative <==> realized == 0 || finished * 100 <= 50 * realized
  {
    var completionRate := Rate(finished, realized, 100);
    RateAbove(finished, realized, 100, 70);
    RateAbove(finished, realized, 100, 50);
    Insight(if completionRate > 70.0 then Positive
            else if completionRate > 50.0 then Neutral
            else Negative,
            "Completion Rate", Some(completionRate), None, None)
  }

  /** Lines 129-138: matched per 100 applications; above 5 is positive, else neutral. */
  function MatchInsight(matched: nat, apps: nat): (i: Insight)
    ensures i.title == InsightTitles[2] && i.value == Some(Rate(matched, apps, 100))
    ensures i.kind == Positive <==> apps > 0 && matched * 100 > 5 * apps
    ensures i.kind != Positive ==> i.kind == Neutral
  {
    var matchRate := Rate(matched, apps, 100);
    RateAbove(matched, apps, 100, 5);
    Insight(if matchRate > 5.0 then Positive else Neutral, "Match Rate", Some(matchRate), None, None)
  }

  /** Lines 141-157: the applications trend and its rounded change. */
  function TrendInsight(t: Analysis): (i: Insight)
    ensures i.title == InsightTitles[3] && i.change == Some(t.percentChange) && i.value == None
    ensures i.kind == Positive <==> t.trend == Increasing
    ensures i.kind == Warning <==> t.trend == Decreasing
    ensures i.kind == Neutral <==> t.trend == Stable
  {
    Insight(TrendKind(t.trend), "Applications Trend", None, Some(t.percentChange), None)
  }

  /** Lines 160-169: the peak of the realized series and the date it first occurs. */
  function PeakInsight(t: Analysis): (i: Insight)
    ensures i.title == InsightTitles[4] && i.kind == Neutral
    ensures i.value == Some(t.max.value as real) && i.date == Some(t.max.date)
  {
    Insight(Neutral, "Peak Performance", Some(t.max.value as real), None, Some(t.max.date))
  }

  /** Lines 172-185: realized per 100 approvals; above 40 is positive, else a warning. */
  function ApprovalInsight(realized: nat, approvals: nat): (i: Insight)
    ensures i.title == InsightTitles[5] && i.value == Some(Rate(realized, approvals, 100))
    ensures i.kind == Positive <==> approvals > 0 && realized * 100 > 40 * approvals
    ensures i.kind != Positive ==> i.kind == Warning
  {
    var approvalToRealizationRate := Rate(realized, approvals, 100);
    RateAbove(realized, approvals, 100, 40);
    Insight(if approvalToRealizationRate > 40.0 then Positive else Warning,
            "Approval to Realization", Some(approvalToRealizationRate), None, None)
  }

  /** Lines 188-199: applications per sign-up; above 5 is positive, else neutral. */
  function EngagementInsight(apps: nat, signups: nat): (i: Insight)
    ensures i.title == InsightTitles[6] && i.value == Some(Rate(apps, signups, 1))
    ensures i.kind == Positive <==> signups > 0 && apps > 5 * signups
    ensures i.kind != Positive ==> i.kind == Neutral
  {
    var signupToAppRatio := Rate(apps, signups, 1);
    RateAbove(apps, signups, 1, 5);
    Insight(if signupToAppRatio > 5.0 then Positive else Neutral,
            "Engagement Rate", Some(signupToAppRatio), None, None)
  }

  /**
   * `generateInsights(data, analytics)`: nothing for fewer than two rows,
   * otherwise the seven insights pushed one by one in title order. Both
   * trend insights are always present, since two rows suffice for a trend.
   */
  method GenerateInsights(data: seq<ChartPoint>, a: Analytics) returns (insights: seq<Insight>)
    ensures |data| < 2 ==> insights == []
    ensures |data| >= 2 ==> |insights| == 7 && forall i :: 0 <= i < 7 ==> insights[i].title == InsightTitles[i]
    ensures |data| >= 2 ==>
              var apps, realized := CountOf(a.totalApplications), CountOf(a.totalRealized);
              insights[0] == ConversionInsight(realized, apps) &&
              insights[1] == CompletionInsight(CountOf(a.totalFinished), realized) &&
              insights[2] == MatchInsight(CountOf(a.totalMatched), apps) &&
              insights[3] == TrendInsight(CalculateTrendAnalysis(data, TotalApplications).value) &&
              insights[4] == PeakInsight(CalculateTrendAnalysis(data, TotalRealized).value) &&
              insights[5] == ApprovalInsight(realized, CountOf(a.totalApprovals)) &&
              insights[6] == EngagementInsight(apps, CountOf(a.totalSignup))
  {
    insights := [];
    if |data| < 2 {
      return;
    }

    var totalApps := CountOf(a.totalApplications);
    var totalRealized := CountOf(a.totalRealized);
    var conversion := ConversionInsight(totalRealized, totalApps);
    insights := insights + [conversion];

    var totalFinished := CountOf(a.totalFinished);
    var completion := CompletionInsight(totalFinished, totalRealized);
    insights := insights + [completion];

    var totalMatched := CountOf(a.totalMatched);
    var matching := MatchInsight(totalMatched, totalApps);
    insights := insights + [matching];

    var trendInsights := TrendInsights(data);
    insights := insights + trendInsights;

    var approvals := CountOf(a.totalApprovals);
    var approval := ApprovalInsight(totalRealized, approvals);
    insights := insights + [approval];

    var signups := CountOf(a.totalSignup);
    var engagement := EngagementInsight(totalApps, signups);
    insights := insights + [engagement];
    assert insights == [conversion, completion, matching, trendInsights[0], trendInsights[1], approval, engagement];
    TitlesInOrder(insights);
  }

  /** Seven insights whose titles match one by one have the titles in order. */
  lemma TitlesInOrder(insights: seq<Insight>)
    requires |insights| == 7
    requires insights[0].title == InsightTitles[0] && insights[1].title == InsightTitles[1]
    requires insights[2].title == InsightTitles[2] && insights[3].title == InsightTitles[3]
    requires insights[4].title == InsightTitles[4] && insights[5].title == InsightTitles[5]
    requires insights[6].title == InsightTitles[6]
    ensures forall i :: 0 <= i < 7 ==> insights[i].title == InsightTitles[i]
  {
  }

  /** Lines 141-169: the trend insights, each pushed when its trend analysis exists. */
  method TrendInsights(data: seq<ChartPoint>) returns (insights: seq<Insight>)
    requires |data| >= 2
    ensures insights == [TrendInsight(CalculateTrendAnalysis(data, TotalApplications).value),
                         PeakInsight(CalculateTrendAnalysis(data, TotalRealized).value)]
  {
    insights := [];
    var appsTrend := CalculateTrendAnalysis(data, TotalApplications);
    if appsTrend.Some? {
      insights := insights + [TrendInsight(appsTrend.value)];
    }
    var realizedTrend := CalculateTrendAnalysis(data, TotalRealized);
    if realizedTrend.Some? {
      insights := insights + [PeakInsight(realizedTrend.value)];
    }
  }

  /**
   * With 100 applications and 10 realized exchanges the conversion rate is
   * 10 percent, a positive insight.
   */
  lemma ConversionExample(a: Analytics)
    requires a.totalApplications.Some? && a.totalApplications.value.docCount == 100
    requires a.totalRealized.Some? && a.totalRealized.value.docCount == 10
    ensures ConversionInsight(CountOf(a.totalRealized), CountOf(a.totalApplications)) ==
            Insight(Positive, "Conversion Rate", Some(10.0), None, None)
  {
    assert Rate(10, 100, 100) == 10.0;
  }

  /** With no applications every applications-based rate is 0 and its insight is not positive. */
  lemma NoApplicationsNoRates(realized: nat, matched: nat, signups: nat)
    ensures ConversionInsight(realized, 0).value == Some(0.0) && ConversionInsight(realized, 0).kind == Warning
    ensures MatchInsight(matched, 0).value == Some(0.0) && MatchInsight(matched, 0).kind == Neutral
    ensures EngagementInsight(0, signups).kind == Neutral
  {
  }
}
