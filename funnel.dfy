/**
 * `calculateFunnelData` (app/lib/analytics-utils.ts:204-247): the totals
 * reshaped into the eight ordered stages of the exchange funnel.
 */
module Funnel {
  import opened AnalyticsTypes
  import opened Constants
  import opened MetricLookup

  datatype Stage = Stage(stage: string, value: nat, color: string)

  /** The metric behind each stage, from sign-ups to completed exchanges. */
  const FunnelKeys: seq<string> := [
    TotalSignup, TotalMatched, TotalApplications, TotalAnAccepted,
    TotalApprovals, TotalRealized, TotalFinished, TotalCompleted
  ]

  /**
   * `calculateFunnelData(analytics)`: always eight stages, in funnel order,
   * each holding its metric's total (0 when the metric is absent). The
   * stages are not required to shrink from one to the next.
   */
  function CalculateFunnelData(a: Analytics): (stages: seq<Stage>)
    ensures |stages| == |FunnelKeys| == 8
    ensures forall i :: 0 <= i < 8 ==> stages[i].value == a.DocCount(FunnelKeys[i])
  {
    [
      Stage("Sign-ups", a.DocCount(TotalSignup), "#6366f1"),
      Stage("Matched", a.DocCount(TotalMatched), "#8b5cf6"),
      Stage("Applications", a.DocCount(TotalApplications), "#3b82f6"),
      Stage("Accepted by Host", a.DocCount(TotalAnAccepted), "#10b981"),
      Stage("Approvals", a.DocCount(TotalApprovals), "#06b6d4"),
      Stage("Realized", a.DocCount(TotalRealized), "#f59e0b"),
      Stage("Finished", a.DocCount(TotalFinished), "#ef4444"),
      Stage("Completed", a.DocCount(TotalCompleted), "#22c55e")
    ]
  }

  /**
   * Each stage's name and colour are its metric's label and colour in
   * `METRIC_CONFIGS`: the funnel follows the first eight configurations, in
   * order.
   */
  lemma StagesFollowConfigs(a: Analytics)
    ensures forall i :: 0 <= i < 8 ==>
              FunnelKeys[i] == MetricConfigs[i].key &&
              CalculateFunnelData(a)[i].stage == GetMetricLabel(FunnelKeys[i]) &&
              CalculateFunnelData(a)[i].color == GetMetricColor(FunnelKeys[i])
  {
    forall i | 0 <= i < 8
      ensures CalculateFunnelData(a)[i].stage == MetricConfigs[i].displayLabel
      ensures CalculateFunnelData(a)[i].color == MetricConfigs[i].color
    {
    }
  }

  /** A response without `total_an_accepted` still has an "Accepted by Host" stage, holding 0. */
  lemma MissingMetricIsZeroStage(a: Analytics)
    requires a.totalAnAccepted.None?
    ensures CalculateFunnelData(a)[3] == Stage("Accepted by Host", 0, "#10b981")
  {
  }
}
