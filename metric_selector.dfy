/**
 * The metric selection list (app/components/MetricSelector.tsx:14-28, 61):
 * toggling one metric, selecting every configured metric, clearing the
 * selection, and the membership test that marks a metric as selected. Each
 * operation computes the new list passed to `onMetricsChange`.
 */
module MetricSelector {
  import opened JsBuiltins
  import opened AnalyticsTypes
  import opened Constants
  import opened MetricLookup

  /** `selectedMetrics.includes(key)`. */
  predicate IsSelected(selected: seq<string>, key: string): (b: bool)
    ensures b <==> exists i :: 0 <= i < |selected| && selected[i] == key
  {
    key in selected
  }

  /** `selectedMetrics.filter((m) => m !== key)`: the selection with every occurrence of `key` removed. */
  function Without(selected: seq<string>, key: string): (r: seq<string>)
    ensures forall k :: k in r <==> k in selected && k != key
    ensures IsSubsequence(r, selected)
    ensures multiset(r) == multiset(selected)[key := 0]
  {
    FilterMembers(selected, (m: string) => m != key);
    Filter(selected, (m: string) => m != key)
  }

  /**
   * `toggleMetric(key)`: a selected key is removed (every occurrence, the
   * others kept in order); any other key is appended at the end.
   */
  function ToggleMetric(selected: seq<string>, key: string): (r: seq<string>)
    ensures IsSelected(r, key) <==> !IsSelected(selected, key)
    ensures forall k :: k != key ==> (IsSelected(r, k) <==> IsSelected(selected, k))
    ensures IsSelected(selected, key) ==> IsSubsequence(r, selected)
    ensures IsSelected(selected, key) ==> multiset(r) == multiset(selected)[key := 0]
    ensures !IsSelected(selected, key) ==> |r| == |selected| + 1 && r[..|selected|] == selected && r[|selected|] == key
  {
    if IsSelected(selected, key) then Without(selected, key)
    else
      var r := selected + [key];
      assert r[..|selected|] == selected;
      r
  }

  /** `selectAll()`: the configured keys, in `METRIC_CONFIGS` order. */
  function SelectAll(): (r: seq<string>)
    ensures r == [TotalSignup, TotalMatched, TotalApplications, TotalAnAccepted, TotalApprovals,
                  TotalRealized, TotalFinished, TotalCompleted, TotalRemoteRealized]
  {
    ConfigKeys(MetricConfigs)
  }

  /** `clearAll()`: nothing selected. */
  function ClearAll(): (r: seq<string>)
    ensures forall k :: !IsSelected(r, k)
  {
    []
  }

  predicate NoDuplicates(s: seq<string>)
  {
    forall i, j :: 0 <= i < j < |s| ==> s[i] != s[j]
  }

  /** After selecting all, every metric of a response is selected, each once. */
  lemma SelectAllSelectsEveryMetric()
    ensures forall k :: IsSelected(SelectAll(), k) <==> k in ResponseKeys
    ensures NoDuplicates(SelectAll())
  {
    ConfigKeysDistinct();
  }

  /** A list whose elements all pass the test is its own filter. */
  lemma {:induction false} FilterKeepsAll(s: seq<string>, key: string)
    requires key !in s
    ensures Filter(s, (m: string) => m != key) == s
  {
    if s != [] {
      FilterKeepsAll(s[1..], key);
    }
  }

  /** Filtering a concatenation filters each part. */
  lemma {:induction false} FilterAppend(s: seq<string>, t: seq<string>, key: string)
    ensures Filter(s + t, (m: string) => m != key) == Filter(s, (m: string) => m != key) + Filter(t, (m: string) => m != key)
  {
    if s == [] {
      assert s + t == t;
    } else {
      assert (s + t)[1..] == s[1..] + t;
      FilterAppend(s[1..], t, key);
    }
  }

  /** Toggling a key that is not selected twice restores the selection. */
  lemma ToggleTwiceRestores(selected: seq<string>, key: string)
    requires !IsSelected(selected, key)
    ensures ToggleMetric(ToggleMetric(selected, key), key) == selected
  {
    FilterAppend(selected, [key], key);
    FilterKeepsAll(selected, key);
    assert Filter([key], (m: string) => m != key) == [];
  }

  /**
   * Toggling a selected key twice moves it to the end: its occurrences are
   * removed and a single one is appended.
   */
  lemma ToggleTwiceMovesToEnd(selected: seq<string>, key: string)
    requires IsSelected(selected, key)
    ensures ToggleMetric(ToggleMetric(selected, key), key) == Without(selected, key) + [key]
  {
  }

  /** A filter keeps a list free of duplicates. */
  lemma {:induction false} FilterNoDuplicates(s: seq<string>, key: string)
    requires NoDuplicates(s)
    ensures NoDuplicates(Filter(s, (m: string) => m != key))
  {
    if s != [] {
      var f := (m: string) => m != key;
      FilterNoDuplicates(s[1..], key);
      var rest := Filter(s[1..], f);
      assert s[0] !in s[1..];
      assert multiset(rest)[s[0]] == 0;
    }
  }

  /** Toggling keeps a selection free of duplicates. */
  lemma ToggleNoDuplicates(selected: seq<string>, key: string)
    requires NoDuplicates(selected)
    ensures NoDuplicates(ToggleMetric(selected, key))
  {
    if IsSelected(selected, key) {
      FilterNoDuplicates(selected, key);
    }
  }
}
