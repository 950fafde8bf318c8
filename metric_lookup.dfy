/**
 * `getMetricLabel` and `getMetricColor` (app/lib/analytics-utils.ts:249-257):
 * a metric's configured label and colour, with fallbacks for names that are
 * not configured.
 */
module MetricLookup {
  import opened Wrappers
  import opened JsBuiltins
  import opened AnalyticsTypes
  import opened Constants

  /** The keys of `METRIC_CONFIGS`, in order. */
  function ConfigKeys(configs: seq<MetricConfig>): seq<string>
  {
    Map(configs, (c: MetricConfig) => c.key)
  }

  /** `configs.find((m) => m.key === key)`: the first configuration for `key`, if any. */
  function FindConfig(configs: seq<MetricConfig>, key: string): (r: Option<MetricConfig>)
    ensures r.None? <==> forall i :: 0 <= i < |configs| ==> configs[i].key != key
    ensures r.Some? ==> exists i :: 0 <= i < |configs| && configs[i] == r.value && r.value.key == key &&
                                    forall j :: 0 <= j < i ==> configs[j].key != key
  {
    if configs == [] then None
    else if configs[0].key == key then Some(configs[0])
    else
      var r := FindConfig(configs[1..], key);
      if r.Some? then
        var i :| 0 <= i < |configs[1..]| && configs[1..][i] == r.value && r.value.key == key &&
                 forall j :: 0 <= j < i ==> configs[1..][j].key != key;
        assert configs[i + 1] == r.value;
        r
      else
        r
  }

  /** The nine configured keys are distinct, and they are exactly the metric names of a response. */
  lemma ConfigKeysDistinct()
    ensures forall i, j :: 0 <= i < j < |MetricConfigs| ==> MetricConfigs[i].key != MetricConfigs[j].key
    ensures forall k :: k in ConfigKeys(MetricConfigs) <==> k in ResponseKeys
  {
    var ks := ConfigKeys(MetricConfigs);
    assert ks == [TotalSignup, TotalMatched, TotalApplications, TotalAnAccepted, TotalApprovals,
                  TotalRealized, TotalFinished, TotalCompleted, TotalRemoteRealized];
  }

  /** The configuration of a configured key is its (only) entry in `METRIC_CONFIGS`. */
  lemma FindConfigured(i: nat)
    requires i < |MetricConfigs|
    ensures FindConfig(MetricConfigs, MetricConfigs[i].key) == Some(MetricConfigs[i])
  {
    ConfigKeysDistinct();
  }

  /** Looking up any configured key finds its own entry, whose label and colour are not empty. */
  lemma ConfiguredLookup()
    ensures forall i :: 0 <= i < |MetricConfigs| ==>
              FindConfig(MetricConfigs, MetricConfigs[i].key) == Some(MetricConfigs[i]) &&
              MetricConfigs[i].displayLabel != "" && MetricConfigs[i].color != ""
  {
    forall i | 0 <= i < |MetricConfigs|
      ensures FindConfig(MetricConfigs, MetricConfigs[i].key) == Some(MetricConfigs[i])
    {
      FindConfigured(i);
    }
    ConfigsNotBlank();
  }

  /** Every configuration has a label and a colour. */
  lemma ConfigsNotBlank()
    ensures forall i :: 0 <= i < |MetricConfigs| ==>
              MetricConfigs[i].displayLabel != "" && MetricConfigs[i].color != ""
  {
    forall i | 0 <= i < |MetricConfigs|
      ensures |MetricConfigs[i].displayLabel| > 0 && |MetricConfigs[i].color| > 0
    {
    }
  }

  /**
   * `getMetricLabel(key)`: the configured label when there is a non-empty
   * one, otherwise the key with its first "total_" removed and then its
   * first "_" turned into a space.
   */
  function GetMetricLabel(key: string): (l: string)
    ensures forall i :: 0 <= i < |MetricConfigs| && MetricConfigs[i].key == key ==>
              l == MetricConfigs[i].displayLabel
    ensures (forall i :: 0 <= i < |MetricConfigs| ==> MetricConfigs[i].key != key) ==>
              l == FallbackLabel(key)
  {
    ConfiguredLookup();
    var config := FindConfig(MetricConfigs, key);
    if config.Some? && config.value.displayLabel != "" then config.value.displayLabel
    else FallbackLabel(key)
  }

  /** The colour used for metrics without a configuration. */
  const FallbackColor: string := "#6b7280"

  /** `getMetricColor(key)`: the configured colour, or a neutral grey for any other name. */
  function GetMetricColor(key: string): (c: string)
    ensures forall i :: 0 <= i < |MetricConfigs| && MetricConfigs[i].key == key ==>
              c == MetricConfigs[i].color
    ensures (forall i :: 0 <= i < |MetricConfigs| ==> MetricConfigs[i].key != key) ==> c == FallbackColor
  {
    ConfiguredLookup();
    var config := FindConfig(MetricConfigs, key);
    if config.Some? && config.value.color != "" then config.value.color else FallbackColor
  }

  /** A string without underscores has no occurrence of "_". */
  lemma NoUnderscore(s: string)
    requires forall i :: 0 <= i < |s| ==> s[i] != '_'
    ensures forall i :: !OccursAt(s, "_", i)
  {
    forall i | 0 <= i < |s| ensures !OccursAt(s, "_", i) {
      assert s[i..i + 1][0] == s[i];
    }
  }

  /** Replacing the first occurrence of a prefix by nothing removes that prefix. */
  lemma StripPrefix(prefix: string, rest: string)
    ensures ReplaceFirst(prefix + rest, prefix, "") == rest
  {
    var key := prefix + rest;
    assert key[0..|prefix|] == prefix;
    assert OccursAt(key, prefix, 0);
    assert key[|prefix|..] == rest;
  }

  /** The fallback label: the first "total_" removed, then the first "_" turned into a space. */
  function FallbackLabel(key: string): string
  {
    ReplaceFirst(ReplaceFirst(key, "total_", ""), "_", " ")
  }

  /**
   * For a name "total_" + rest that is not configured, where rest has no
   * underscore, the fallback label is rest itself.
   */
  lemma FallbackLabelStripsPrefix(rest: string)
    requires forall i :: 0 <= i < |rest| ==> rest[i] != '_'
    requires forall i :: 0 <= i < |MetricConfigs| ==> MetricConfigs[i].key != "total_" + rest
    ensures GetMetricLabel("total_" + rest) == rest
  {
    assert FallbackLabel("total_" + rest) == rest by {
      StripPrefix("total_", rest);
      NoUnderscore(rest);
    }
  }

  /**
   * Only the first underscore after the prefix becomes a space: for an
   * unconfigured "total_" + first + "_" + rest, where first has no
   * underscore, the label is first + " " + rest, underscores of rest kept.
   */
  lemma FallbackLabelFirstUnderscoreOnly(first: string, rest: string)
    requires forall i :: 0 <= i < |first| ==> first[i] != '_'
    requires forall i :: 0 <= i < |MetricConfigs| ==> MetricConfigs[i].key != "total_" + first + "_" + rest
    ensures GetMetricLabel("total_" + first + "_" + rest) == first + " " + rest
  {
    assert FallbackLabel("total_" + first + "_" + rest) == first + " " + rest by {
      assert "total_" + first + "_" + rest == "total_" + (first + "_" + rest);
      StripPrefix("total_", first + "_" + rest);
      NoUnderscore(first);
      FirstAfterClearPrefix(first, "_", rest);
    }
  }

  /** When `pat` does not occur in `pre`, a single-character `pat` first occurs right after `pre`. */
  lemma FirstAfterClearPrefix(pre: string, pat: string, post: string)
    requires |pat| == 1 && forall i :: !OccursAt(pre, pat, i)
    ensures ReplaceFirst(pre + pat + post, pat, " ") == pre + " " + post
  {
    var s := pre + pat + post;
    assert s[|pre|..|pre| + 1] == pat;
    forall j | 0 <= j < |pre| ensures !OccursAt(s, pat, j) {
      assert !OccursAt(pre, pat, j);
      assert s[j..j + 1] == pre[j..j + 1];
    }
    assert s[..|pre|] == pre && s[|pre| + 1..] == post;
  }
}
