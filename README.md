# AIESEC analytics dashboard: the analytics transformation layer in Dafny

This project models the computations behind the AIESEC analytics dashboard.
The upstream analytics API returns, for each of nine metrics (sign-ups, matched, applications, accepted by host,
approvals, realized, finished, completed, remote realized), a total and a list of dated buckets. The dashboard turns
that response into:

- one chart row per distinct date holding every metric's count at that date, sorted by date (`transformAnalyticsData`);
- a trend summary of one series: first half against second half, average, maximum and minimum (`calculateTrendAnalysis`);
- seven KPI insights with zero-guarded ratios (`generateInsights`);
- the eight funnel stages (`calculateFunnelData`);
- label and colour lookups with fallbacks (`getMetricLabel`, `getMetricColor`);
- the summary cards with their three-bucket trend (`MetricCards`);
- the metric selection list (`MetricSelector`);
- the application-status pie segments and their shares (`DistributionChart`).

Modules, one per file:

| file | module | models |
|---|---|---|
| wrappers.dfy | `Wrappers` | optional JavaScript properties |
| js_builtins.dfy | `JsBuiltins` | the JavaScript built-ins the code relies on: `Math.round`, `reduce` as a sum, `slice` with negative indices, `map`, `filter`, `indexOf` and the first-occurrence `replace` on strings |
| analytics_types.dfy | `AnalyticsTypes` | the response, bucket, metric and chart-row records |
| constants.dfy | `Constants` | `METRIC_CONFIGS` |
| transform.dfy | `Transform` | `transformAnalyticsData`, imperative: nested loops over a date map, then a sort |
| trend_analysis.dfy | `TrendAnalysis` | `calculateTrendAnalysis`, pure |
| insights.dfy | `Insights` | `generateInsights`, imperative: repeated `push` |
| funnel.dfy | `Funnel` | `calculateFunnelData` |
| metric_lookup.dfy | `MetricLookup` | `getMetricLabel`, `getMetricColor` |
| metric_cards.dfy | `MetricCards` | `calculateTrend` and the card selection |
| metric_selector.dfy | `MetricSelector` | `toggleMetric`, `selectAll`, `clearAll`, `isSelected` |
| distribution_chart.dfy | `DistributionChart` | the pie segments, their filter and the share percentage |

Modelling choices:

- A bucket's `key_as_string` is the integer timestamp it denotes.
  - The model takes distinct date strings to denote distinct instants.
  - So the date is both the key under which rows merge and the value they are sorted by.
- The `"MMM yyyy"` label of a date is a parameter, `format`, about which nothing is assumed.
- Counts are `nat`. Ratios, averages and percentages are `real`.
- `Math.round(x)` is `floor(x + 1/2)`, so halves round toward positive infinity.
- `Object.entries(analytics)` is the sequence of the nine metrics in the order the response type declares them.
- A chart row's metric values are a `map<string, nat>`. A metric without a value on a row reads as 0.
- `transformAnalyticsData` is a method, proved against specification functions:
  - `Put` writes one bucket;
  - `Written` writes a metric's buckets;
  - `Merged` writes all entries;
  - `ValuesAt` gives the final values at one date.

  Its `Map` is a `map<int, ChartPoint>` plus a `seq<int>` of dates in insertion order, and `Array.from(dateMap.values())` reads them in that order.
- `generateInsights` is a method that appends its insights one by one.

## Model

| member | source | states |
|---|---|---|
| AnalyticsTypes.EntriesFollowKeys | app/types/analytics.ts:19-31 | `Object.entries` lists the nine metric names once each, each paired with its own (possibly absent) metric |
| AnalyticsTypes.UnknownKeyAbsent | app/types/analytics.ts:19-31 | a name that is not one of the nine metrics reads as absent, with total 0 |
| AnalyticsTypes.Analytics.DocCount | app/lib/analytics-utils.ts:94 | `analytics[key]?.doc_count`, defaulting to 0: the metric's total when present, 0 when absent |
| AnalyticsTypes.CountOf | app/components/DistributionChart.tsx:58 | `metric?.doc_count`, defaulting to 0: the total of a present metric, 0 for an absent one |
| AnalyticsTypes.ChosenBuckets | app/lib/analytics-utils.ts:21-22 | a present `applications` list is used whatever it holds; otherwise `people`'s list; otherwise none (the same choice as MetricCards.tsx:70-71) |
| AnalyticsTypes.ValueOf | app/lib/analytics-utils.ts:50 | `d[k] as number`, defaulting to 0: the row's count for the metric, 0 when the row has none |
| JsBuiltins.Round | app/lib/analytics-utils.ts:78-79 | `Math.round` returns the integer within half of its argument, halves rounding up |
| JsBuiltins.RoundMonotone | app/lib/analytics-utils.ts:79 | rounding preserves order |
| JsBuiltins.SumBounds | app/lib/analytics-utils.ts:79 | a sum of n values between lo and hi lies between n·lo and n·hi |
| JsBuiltins.Slice | app/lib/analytics-utils.ts:51-52 | `slice(begin, end)` with negative indices counted from the end and clamped: the elements between the clamped indices, or none when they cross |
| JsBuiltins.Filter | app/components/MetricSelector.tsx:16 | `filter` keeps exactly the elements passing the test, with their multiplicities, in their original order |
| JsBuiltins.FilterMembers | app/components/DistributionChart.tsx:61 | an element is in the filtered list iff it is in the list and passes the test |
| JsBuiltins.IndexOf | app/lib/analytics-utils.ts:251 | `indexOf` on strings: -1 iff the pattern does not occur, else its first occurrence |
| JsBuiltins.ReplaceFirst | app/lib/analytics-utils.ts:251 | `replace` with a string pattern rewrites only the first occurrence, and leaves the string alone when there is none |
| Transform.LastCountDefined | app/lib/analytics-utils.ts:24-36 | a metric leaves a count at a date iff one of its buckets falls on that date |
| Transform.LastCountIsLast | app/lib/analytics-utils.ts:34-35 | the count left at a date is that of a bucket at that date followed by no other bucket at that date: later buckets overwrite earlier ones |
| Transform.Insert | app/lib/analytics-utils.ts:39-41 | inserting a row with a new date into a date-ascending list keeps it strictly ascending and adds exactly that row |
| Transform.SortByDate | app/lib/analytics-utils.ts:39-41 | sorting rows with distinct dates yields a strictly ascending permutation of them |
| Transform.PutBucket | app/lib/analytics-utils.ts:25-35 | one bucket: the row of its date is created if missing and gets the bucket's count under the metric's key; the insertion order gains the date iff it was new and stays in step with the map |
| Transform.WriteBucket | app/lib/analytics-utils.ts:24-36 | writing one more bucket keeps the map equal to "every processed entry, then the current metric's buckets so far": the dates are those of all buckets written and each row holds the values of its date |
| Transform.RowAtBucket | app/lib/analytics-utils.ts:27-35 | after a bucket is written, the row at its date holds the earlier entries' values with the metric's value set to the bucket's count |
| Transform.TrackNewDate | app/lib/analytics-utils.ts:27-32 | recording a new date keeps the insertion order free of duplicates and equal, as a set, to the map's dates |
| Transform.WriteBuckets | app/lib/analytics-utils.ts:24-36 | the inner `forEach` leaves the map that writing every bucket of the metric in order gives, and the order in step with it |
| Transform.WrittenBuilt | app/lib/analytics-utils.ts:24-36 | writing a metric's buckets in order extends the merged rows of the processed entries by that metric |
| Transform.WriteMetric | app/lib/analytics-utils.ts:18-37 | an entry writes its chosen buckets under its key; an absent metric writes nothing |
| Transform.MergeEntries | app/lib/analytics-utils.ts:15-37 | the outer `forEach` yields a map with exactly one row per date of any present metric's buckets, each row holding the values of its date |
| Transform.MergedRows | app/lib/analytics-utils.ts:15-37 | the merged map's dates are the entries' bucket dates and each row holds its date, its label and its values |
| Transform.RowsInOrder | app/lib/analytics-utils.ts:39 | `Array.from(dateMap.values())`: the rows, in the insertion order of their dates |
| Transform.SortedRows | app/lib/analytics-utils.ts:39-41 | the sorted rows carry exactly the merged dates, once each, each row holding the values of its date |
| Transform.TransformAnalyticsData | app/lib/analytics-utils.ts:11-42 | the result is strictly ascending by date, has one row per distinct bucket date of the present metrics and no other, and each row is the row of its date |
| Transform.ValuesAtEntry | app/lib/analytics-utils.ts:24-36 | with distinct metric names, a row carries a metric iff it has a bucket there, with the last such bucket's count, whatever the other metrics write |
| Transform.RowValues | app/lib/analytics-utils.ts:19-36 | a row carries metric k iff k is present and one of its chosen buckets falls on the row's date, and the value is then the count of the last such bucket |
| Transform.ValuesAtOtherKey | app/lib/analytics-utils.ts:35 | a row never carries a name no entry has |
| Transform.DatesOfMember | app/lib/analytics-utils.ts:18-37 | a date has a row iff some entry contributes a bucket at it |
| Transform.DatesAreBucketDates | app/lib/analytics-utils.ts:18-37 | the rows' dates are exactly the bucket dates of the present metrics |
| Transform.NoBucketsNoRows | app/lib/analytics-utils.ts:19-22 | a response whose metrics are all absent or without buckets yields no rows |
| Transform.EmptyApplicationsHidePeople | app/lib/analytics-utils.ts:21-22 | a present but empty `applications` list hides the metric's `people` buckets: the metric is on no row |
| Transform.AscendingUnique | app/lib/analytics-utils.ts:39-41 | two strictly ascending row lists over the same dates that agree date by date are equal |
| Transform.TransformDeterministic | app/lib/analytics-utils.ts:11-42 | any two results meeting the transformation's postcondition are equal, so that postcondition fixes the result |
| TrendAnalysis.Values | app/lib/analytics-utils.ts:50 | one value per row, the metric's count on it or 0 when missing |
| TrendAnalysis.MaxOfIsMax | app/lib/analytics-utils.ts:70 | `Math.max` returns an element that no element exceeds |
| TrendAnalysis.MinOfIsMin | app/lib/analytics-utils.ts:71 | `Math.min` returns an element below no element |
| TrendAnalysis.FirstIndexIsFirst | app/lib/analytics-utils.ts:72-73 | `indexOf` returns a position holding the element with no earlier one |
| TrendAnalysis.CalculateTrendAnalysis | app/lib/analytics-utils.ts:44-83 | `null` iff there are fewer than two rows; otherwise an analysis of the requested metric |
| TrendAnalysis.HalvesSplitSeries | app/lib/analytics-utils.ts:51-52 | the first half is the first ⌊n/2⌋ values, never empty, the second half is the rest, never empty, and together they are the series |
| TrendAnalysis.ClassifyHalves | app/lib/analytics-utils.ts:58-68 | the strict ±5 % thresholds, in integer terms of the half sums and lengths |
| TrendAnalysis.TrendClassification | app/lib/analytics-utils.ts:48-68 | increasing iff S1 > 0 and 20·h·S2 > 21·m·S1, decreasing iff 20·h·S2 < 19·m·S1, stable otherwise; a zero first half gives a stable trend with change 0 |
| TrendAnalysis.PercentChangeRounded | app/lib/analytics-utils.ts:58-78 | the reported change is a whole number of tenths within half a tenth of the exact change (h·S2 − m·S1)·100 / (m·S1) |
| TrendAnalysis.RoundTenths | app/lib/analytics-utils.ts:78 | rounding to one decimal gives a whole number of tenths within half a tenth of its argument |
| TrendAnalysis.ExactPercent | app/lib/analytics-utils.ts:58-61 | the percent change of the half averages is the exact integer-ratio expression |
| TrendAnalysis.ExtremesFirstOccurrence | app/lib/analytics-utils.ts:70-81 | the maximum and minimum bound every value, each occurs, and each is dated by its first occurrence |
| TrendAnalysis.RoundedMeanBetween | app/lib/analytics-utils.ts:70-79 | the rounded mean lies between the minimum and the maximum |
| TrendAnalysis.AverageBetweenExtremes | app/lib/analytics-utils.ts:79-81 | the reported average is within half of the exact mean and lies between the reported minimum and maximum |
| AnalyticsTypes.Rate | app/lib/analytics-utils.ts:96 | the zero-guarded ratio (also at lines 111, 130, 175 and 189): 0 over a zero denominator, otherwise rate × denominator = numerator × scale |
| Insights.RateAbove | app/lib/analytics-utils.ts:99 | a rate exceeds a threshold iff the denominator is positive and the cross product exceeds it |
| Insights.ConversionInsight | app/lib/analytics-utils.ts:94-106 | conversion rate = realized/applications·100 (0 without applications); positive iff above 1, else warning |
| Insights.CompletionInsight | app/lib/analytics-utils.ts:109-126 | completion rate = finished/realized·100; positive above 70, neutral above 50, negative otherwise |
| Insights.MatchInsight | app/lib/analytics-utils.ts:129-138 | match rate = matched/applications·100; positive above 5, else neutral |
| Insights.TrendInsight | app/lib/analytics-utils.ts:141-157 | the applications trend: positive iff increasing, warning iff decreasing, neutral iff stable, carrying the rounded change |
| Insights.PeakInsight | app/lib/analytics-utils.ts:159-169 | a neutral insight carrying the realized series' maximum and its date |
| Insights.ApprovalInsight | app/lib/analytics-utils.ts:171-185 | realized/approvals·100; positive above 40, else warning |
| Insights.EngagementInsight | app/lib/analytics-utils.ts:187-199 | applications per sign-up; positive above 5, else neutral |
| Insights.TrendInsights | app/lib/analytics-utils.ts:140-169 | with at least two rows both trend insights are pushed, in order |
| Insights.GenerateInsights | app/lib/analytics-utils.ts:85-202 | no insights for fewer than two rows; otherwise exactly seven in the fixed title order, each computed from the totals (absent metrics as 0) or the trends |
| Insights.TitlesInOrder | app/lib/analytics-utils.ts:100-193 | the seven titles in emission order |
| Insights.ConversionExample | app/lib/analytics-utils.ts:94-106 | 10 realized out of 100 applications is a 10 % conversion rate, positive |
| Insights.NoApplicationsNoRates | app/lib/analytics-utils.ts:94-199 | with no applications the conversion and match rates are 0 and not positive; with no applications engagement is not positive |
| Funnel.CalculateFunnelData | app/lib/analytics-utils.ts:204-247 | always eight stages, each holding its metric's total or 0 when absent |
| Funnel.StagesFollowConfigs | app/lib/analytics-utils.ts:204-247 | the stages follow the first eight configured metrics in order, each named and coloured as configured |
| Funnel.MissingMetricIsZeroStage | app/lib/analytics-utils.ts:221-225 | an absent metric still gets its stage, holding 0 |
| MetricLookup.FindConfig | app/lib/analytics-utils.ts:250 | `find` returns the first configuration with the key, or nothing when there is none |
| MetricLookup.ConfigKeysDistinct | app/lib/constants.ts:3-58 | the configured keys are distinct and are exactly the nine response metric names |
| MetricLookup.ConfiguredLookup | app/lib/constants.ts:3-58 | looking up a configured key finds its own entry, whose label and colour are not empty |
| MetricLookup.GetMetricLabel | app/lib/analytics-utils.ts:249-252 | a configured key gets its label; any other gets the fallback label |
| MetricLookup.GetMetricColor | app/lib/analytics-utils.ts:254-257 | a configured key gets its colour; any other gets grey `#6b7280` |
| MetricLookup.StripPrefix | app/lib/analytics-utils.ts:251 | replacing a leading prefix by nothing removes it |
| MetricLookup.FallbackLabelStripsPrefix | app/lib/analytics-utils.ts:251 | an unconfigured "total_" + rest without underscores is labelled rest |
| MetricLookup.FallbackLabelFirstUnderscoreOnly | app/lib/analytics-utils.ts:251 | only the first underscore after the prefix becomes a space; later ones stay |
| MetricCards.Counts | app/components/MetricCards.tsx:41-43 | one count per bucket, in order |
| MetricCards.CalculateTrend | app/components/MetricCards.tsx:37-51 | fewer than two buckets is stable with change 0 |
| MetricCards.Windows | app/components/MetricCards.tsx:40-43 | the windows are the last three counts and the up to three before them, clipped at the start |
| MetricCards.ChangeOfSums | app/components/MetricCards.tsx:40-47 | the divisions by 3 cancel: the change is (R − P)·100 / P in the window sums |
| MetricCards.ChangeCompare | app/components/MetricCards.tsx:48 | the strict ±5 % thresholds in integer terms of the window sums |
| MetricCards.TrendOfWindows | app/components/MetricCards.tsx:37-51 | a zero previous window is stable with change 0; otherwise up iff 20·R > 21·P, down iff 20·R < 19·P, change = round((R − P)·100 / P), so the result depends on the two window sums alone |
| MetricCards.ShortSeriesStable | app/components/MetricCards.tsx:38-45 | any series of at most three buckets is stable with change 0 |
| MetricCards.CardFor | app/components/MetricCards.tsx:63-72 | a card exists iff the metric is both in the response and configured; it shows the total, the configured label and colour, and the trend of the chosen buckets |
| MetricCards.Collect | app/components/MetricCards.tsx:63-68 | every collected card is what rendering its own name gives |
| MetricCards.CollectKeys | app/components/MetricCards.tsx:63-68 | the collected cards' names are the names that have a card, in order |
| MetricCards.MainMetricsConfigured | app/components/MetricCards.tsx:53-68 | every main metric is configured, so it has a card iff the response holds it |
| MetricCards.CardsForPresentMainMetrics | app/components/MetricCards.tsx:53-68 | the cards are exactly the main metrics present in the response, in display order |
| MetricCards.CardContents | app/components/MetricCards.tsx:63-72 | each card shows its metric's total, label, colour and the trend of its applications-first chosen buckets |
| MetricSelector.IsSelected | app/components/MetricSelector.tsx:61 | `includes`: a key is selected iff it occurs at some position of the list |
| MetricSelector.Without | app/components/MetricSelector.tsx:16 | removing a key drops every occurrence of it and keeps the others in order, each as often as before |
| MetricSelector.ToggleMetric | app/components/MetricSelector.tsx:14-20 | the key becomes selected iff it was not; other keys keep their status; a removal drops every occurrence of the key and keeps the rest in order with their multiplicities; an addition appends at the end and leaves the earlier entries unchanged |
| MetricSelector.SelectAll | app/components/MetricSelector.tsx:22-24 | the nine configured keys in configuration order |
| MetricSelector.ClearAll | app/components/MetricSelector.tsx:26-28 | nothing selected |
| MetricSelector.SelectAllSelectsEveryMetric | app/components/MetricSelector.tsx:22-61 | after selecting all, a metric is selected iff it is one of the nine, each listed once |
| MetricSelector.ToggleTwiceRestores | app/components/MetricSelector.tsx:14-20 | toggling an unselected key twice restores the selection |
| MetricSelector.ToggleTwiceMovesToEnd | app/components/MetricSelector.tsx:14-20 | toggling a selected key twice moves it, once, to the end |
| MetricSelector.FilterAppend | app/components/MetricSelector.tsx:16 | removing a key from a concatenation removes it from each part |
| MetricSelector.ToggleNoDuplicates | app/components/MetricSelector.tsx:14-20 | toggling keeps a duplicate-free selection duplicate-free |
| DistributionChart.RawSegments | app/components/DistributionChart.tsx:20-60 | six segments before filtering |
| DistributionChart.DistributionData | app/components/DistributionChart.tsx:61 | the drawn segments are exactly the positive ones, in their original order |
| DistributionChart.RawSegmentsTelescope | app/components/DistributionChart.tsx:20-60 | the six differences add up to the applications total |
| DistributionChart.PositiveFilterSum | app/components/DistributionChart.tsx:61 | dropping the non-positive segments never lowers the sum |
| DistributionChart.DrawnSegmentsCoverApplications | app/components/DistributionChart.tsx:20-61 | the drawn segments add up to at least the applications total |
| DistributionChart.NonIncreasingFunnelExactCover | app/components/DistributionChart.tsx:20-61 | when no total exceeds the one before it, the drawn segments add up to exactly the applications total |
| DistributionChart.CompletedDrawnIff | app/components/DistributionChart.tsx:56-61 | the Completed segment is drawn iff some exchange was completed |
| DistributionChart.Share | app/components/DistributionChart.tsx:63-72 | the share is 0 without applications, otherwise value ÷ applications × 100 |

## Left out

- The HTTP proxy (app/api/analytics/route.ts) and the page's state, fetching and layout (app/page.tsx) are not part of this model. They are I/O and UI.
- Recharts rendering, tooltips, legends, icons and label geometry are left out. They are UI drawn by a foreign library.
- Strings built with `toFixed`, `toLocaleString` and template literals are left out: insight descriptions, equations and string values. The model keeps the numbers they format. An insight's `value` is the number before `toFixed`.
- The date-fns `format(parseISO(date), "MMM yyyy")` label is the parameter `format`. Parsing and locale formatting are not modelled.
- Floating point: ratios, averages and percentages are exact reals, with no IEEE-754 rounding.
- The bucket's numeric `key` field is not modelled, because nothing in the core reads it.
- Transform.TransformAnalyticsData: the model keys rows by the timestamp a date string denotes, not by the string.
  - Two different strings for the same instant would form two rows in the source and one row here.
  - The source sort compares `new Date(date).getTime()`, which is this timestamp. An unparseable date (`NaN`) is not modelled.
- Transform.SortByDate: it requires distinct dates, which holds for rows taken from a map keyed by date. It is an insertion sort standing in for the engine's `Array.prototype.sort`. Only its result is modelled, since ties cannot occur.
- A row's `date` and `formattedDate` fields and its metric values live in one object in the source. The model keeps them apart. They could only clash if a metric were named `date` or `formattedDate`, and the nine metric names are fixed.
- The entries are processed in the response type's declaration order. The metric names are distinct, so a row's value for a metric depends only on that metric's buckets (`RowValues`). Another order would therefore give the same rows.
- TrendAnalysis.CalculateTrendAnalysis: its own contract states only when it returns a result. The trend, change, average and extremes are stated by TrendClassification, PercentChangeRounded, AverageBetweenExtremes and ExtremesFirstOccurrence.
- TrendAnalysis.CalculateTrendAnalysis: `data[maxIndex]?.formattedDate || ""` is modelled as `data[maxIndex].formattedDate`. The index always exists, and an empty label is returned unchanged either way.
- MetricCards.CalculateTrend: its own contract states only the short-series case. The general case is TrendOfWindows.
- The `description` field of `METRIC_CONFIGS` is kept as data, but nothing in the core reads it.
- The `DEMO_DATA` fixtures are not modelled.
