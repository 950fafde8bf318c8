/**
 * The data model of the analytics API response and of the chart rows built
 * from it (app/types/analytics.ts).
 *
 * A bucket's `key_as_string` is modelled by the integer timestamp it denotes:
 * distinct date strings denote distinct instants, so the date is both the
 * key under which rows are merged and the value they are sorted by. The
 * bucket's numeric `key` is never read by the computations modelled here.
 */
module AnalyticsTypes {
  import opened Wrappers

  /** One period's count. */
  datatype Bucket = Bucket(date: int, docCount: nat)

  /**
   * A metric's total and its bucket collection, which the upstream schema
   * names `applications` for some metrics and `people` for others.
   */
  datatype Metric = Metric(docCount: nat, applications: Option<seq<Bucket>>, people: Option<seq<Bucket>>)

  const TotalRemoteRealized: string := "total_remote_realized"
  const TotalCompleted: string := "total_completed"
  const TotalFinished: string := "total_finished"
  const TotalRealized: string := "total_realized"
  const TotalAnAccepted: string := "total_an_accepted"
  const TotalApplications: string := "total_applications"
  const TotalApprovals: string := "total_approvals"
  const TotalMatched: string := "total_matched"
  const TotalSignup: string := "total_signup"

  /** The metric names of the response, in the order the response type declares them. */
  const ResponseKeys: seq<string> := [
    TotalRemoteRealized, TotalCompleted, TotalFinished, TotalRealized, TotalAnAccepted,
    TotalApplications, TotalApprovals, TotalMatched, TotalSignup
  ]

  /** One `[metricKey, metricData]` pair of `Object.entries(analytics)`. */
  datatype Entry = Entry(key: string, metric: Option<Metric>)

  /** The `analytics` object of a response: nine metrics, each possibly absent. */
  datatype Analytics = Analytics(
    totalRemoteRealized: Option<Metric>,
    totalCompleted: Option<Metric>,
    totalFinished: Option<Metric>,
    totalRealized: Option<Metric>,
    totalAnAccepted: Option<Metric>,
    totalApplications: Option<Metric>,
    totalApprovals: Option<Metric>,
    totalMatched: Option<Metric>,
    totalSignup: Option<Metric>)
  {
    /** `analytics[key]`: the metric stored under a name; any other name is absent. */
    function Get(key: string): Option<Metric>
    {
      if key == TotalRemoteRealized then totalRemoteRealized
      else if key == TotalCompleted then totalCompleted
      else if key == TotalFinished then totalFinished
      else if key == TotalRealized then totalRealized
      else if key == TotalAnAccepted then totalAnAccepted
      else if key == TotalApplications then totalApplications
      else if key == TotalApprovals then totalApprovals
      else if key == TotalMatched then totalMatched
      else if key == TotalSignup then totalSignup
      else None
    }

    /** `analytics[key]?.doc_count || 0`: an absent metric counts as zero. */
    function DocCount(key: string): (r: nat)
      ensures Get(key).Some? ==> r == Get(key).value.docCount
      ensures Get(key).None? ==> r == 0
    {
      CountOf(Get(key))
    }

    /** `Object.entries(analytics)`, one entry per metric name. */
    function Entries(): seq<Entry>
    {
      [
        Entry(TotalRemoteRealized, totalRemoteRealized), Entry(TotalCompleted, totalCompleted),
        Entry(TotalFinished, totalFinished), Entry(TotalRealized, totalRealized),
        Entry(TotalAnAccepted, totalAnAccepted), Entry(TotalApplications, totalApplications),
        Entry(TotalApprovals, totalApprovals), Entry(TotalMatched, totalMatched),
        Entry(TotalSignup, totalSignup)
      ]
    }
  }

  /** `metric?.doc_count || 0`: an absent metric counts as zero. */
  function CountOf(m: Option<Metric>): (r: nat)
    ensures m.Some? ==> r == m.value.docCount
    ensures m.None? ==> r == 0
  {
    match m
    case Some(metric) => metric.docCount
    case None => 0
  }

  /**
   * `metric.applications?.buckets || metric.people?.buckets || []`. An array
   * is truthy even when empty, so a present `applications` collection wins
   * over `people` whatever it holds.
   */
  function ChosenBuckets(m: Metric): (r: seq<Bucket>)
    ensures m.applications.Some? ==> r == m.applications.value
    ensures m.applications.None? && m.people.Some? ==> r == m.people.value
    ensures m.applications.None? && m.people.None? ==> r == []
  {
    match m.applications
    case Some(bs) => bs
    case None => m.people.GetOr([])
  }

  /** The buckets an entry contributes: none when the metric is absent. */
  function Contributed(e: Entry): seq<Bucket>
  {
    match e.metric
    case Some(m) => ChosenBuckets(m)
    case None => []
  }

  /**
   * One chart row: the raw date, its display label and the count of every
   * metric that has a bucket at that date.
   */
  datatype ChartPoint = ChartPoint(date: int, formattedDate: string, values: map<string, nat>)

  /** `(point[key] as number) || 0`: a metric without a value on a row reads as zero. */
  function ValueOf(p: ChartPoint, key: string): (r: nat)
    ensures key in p.values ==> r == p.values[key]
    ensures key !in p.values ==> r == 0
  {
    if key in p.values then p.values[key] else 0
  }

  /**
   * `den > 0 ? (num / den) * scale : 0`, the guarded ratio behind every rate
   * and share the dashboard shows: 0 over a zero denominator, and otherwise
   * the number that times the denominator gives num·scale.
   */
  function Rate(num: nat, den: nat, scale: nat): (r: real)
    ensures den == 0 ==> r == 0.0
    ensures den > 0 ==> r * den as real == (num * scale) as real
  {
    if den > 0 then num as real / den as real * scale as real else 0.0
  }

  /** A dashboard metric's display configuration. */
  datatype MetricConfig = MetricConfig(key: string, displayLabel: string, color: string, description: string)

  /** Every response metric name is an entry key at its own position, paired with that metric. */
  lemma EntriesFollowKeys(a: Analytics)
    ensures |a.Entries()| == |ResponseKeys|
    ensures forall i :: 0 <= i < |ResponseKeys| ==>
              a.Entries()[i] == Entry(ResponseKeys[i], a.Get(ResponseKeys[i]))
    ensures forall i, j :: 0 <= i < j < |ResponseKeys| ==> ResponseKeys[i] != ResponseKeys[j]
  {
  }

  /** A name that is not one of the nine is absent from every response. */
  lemma UnknownKeyAbsent(a: Analytics, key: string)
    requires key !in ResponseKeys
    ensures a.Get(key) == None && a.DocCount(key) == 0
  {
  }
}
