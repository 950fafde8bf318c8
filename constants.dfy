/** The dashboard's metric configuration (app/lib/constants.ts). */
module Constants {
  import opened AnalyticsTypes

  /** `METRIC_CONFIGS`: label, colour and description of each metric, in display order. */
  const MetricConfigs: seq<MetricConfig> := [
    MetricConfig(TotalSignup, "Sign-ups", "#6366f1", "Total number of new sign-ups"),
    MetricConfig(TotalMatched, "Matched", "#8b5cf6", "Applications that have been matched with opportunities"),
    MetricConfig(TotalApplications, "Applications", "#3b82f6", "Total number of applications submitted"),
    MetricConfig(TotalAnAccepted, "Accepted by Host", "#10b981", "Applications accepted by host organization"),
    MetricConfig(TotalApprovals, "Approvals", "#06b6d4", "Applications that have been approved"),
    MetricConfig(TotalRealized, "Realized", "#f59e0b", "Exchanges that have been realized (started)"),
    MetricConfig(TotalFinished, "Finished", "#ef4444", "Exchanges that have been finished"),
    MetricConfig(TotalCompleted, "Completed", "#22c55e", "Exchanges that have been completed successfully"),
    MetricConfig(TotalRemoteRealized, "Remote Realized", "#ec4899", "Remote exchanges that have been realized")
  ]
}
