/**
 * The application-status distribution (app/components/DistributionChart.tsx:20-72):
 * six segments, each the drop between two consecutive funnel totals (the
 * last one the completed total itself), of which only the positive ones are
 * drawn, and each segment's share of all applications.
 */
module DistributionChart {
  import opened JsBuiltins
  import opened AnalyticsTypes

  /** One pie segment; its value is a difference of totals and may be negative. */
  datatype Segment = Segment(name: string, value: int, color: string)

  /** The six segments before filtering, in drawing order. */
  function RawSegments(a: Analytics): (ss: seq<Segment>)
    ensures |ss| == 6
  {
    var apps, matched := CountOf(a.totalApplications), CountOf(a.totalMatched);
    var approvals, realized := CountOf(a.totalApprovals), CountOf(a.totalRealized);
    var finished, completed := CountOf(a.totalFinished), CountOf(a.totalCompleted);
    [
      Segment("Pending", apps - matched, "#94a3b8"),
      Segment("Matched (Pending)", matched - approvals, "#8b5cf6"),
      Segment("Approved", approvals - realized, "#06b6d4"),
      Segment("Realized", realized - finished, "#f59e0b"),
      Segment("Finished", finished - completed, "#ef4444"),
      Segment("Completed", completed, "#22c55e")
    ]
  }

  predicate IsPositive(s: Segment)
  {
    s.value > 0
  }

  /** The drawn segments: `data.filter((d) => d.value > 0)`. */
  function DistributionData(a: Analytics): (ss: seq<Segment>)
    ensures forall s :: s in ss <==> s in RawSegments(a) && s.value > 0
    ensures IsSubsequence(ss, RawSegments(a))
  {
    FilterMembers(RawSegments(a), IsPositive);
    Filter(RawSegments(a), IsPositive)
  }

  /** The segments' values, in order. */
  function SegmentValues(ss: seq<Segment>): seq<int>
  {
    Map(ss, (s: Segment) => s.value)
  }

  /** The sum of six values, added from the left. */
  lemma SumSix(vs: seq<int>)
    requires |vs| == 6
    ensures Sum(vs) == vs[0] + vs[1] + vs[2] + vs[3] + vs[4] + vs[5]
  {
    assert Sum(vs[..1]) == vs[0] by {
      assert vs[..1][..0] == [];
    }
    assert Sum(vs[..2]) == Sum(vs[..1]) + vs[1] by {
      assert vs[..2][..1] == vs[..1];
    }
    assert Sum(vs[..3]) == Sum(vs[..2]) + vs[2] by {
      assert vs[..3][..2] == vs[..2];
    }
    assert Sum(vs[..4]) == Sum(vs[..3]) + vs[3] by {
      assert vs[..4][..3] == vs[..3];
    }
    assert Sum(vs[..5]) == Sum(vs[..4]) + vs[4] by {
      assert vs[..5][..4] == vs[..4];
    }
    assert Sum(vs) == Sum(vs[..5]) + vs[5];
  }

  /** The six differences telescope: before filtering they add up to the applications total. */
  lemma RawSegmentsTelescope(a: Analytics)
    ensures Sum(SegmentValues(RawSegments(a))) == CountOf(a.totalApplications)
  {
    var ss := RawSegments(a);
    SumSix(SegmentValues(ss));
    assert ss[0].value + ss[1].value + ss[2].value + ss[3].value + ss[4].value + ss[5].value ==
           CountOf(a.totalApplications);
  }

  /** Summing a list with a head: the head plus the sum of the rest. */
  lemma SumCons(x: int, s: seq<int>)
    ensures Sum([x] + s) == x + Sum(s)
  {
    SumConcat([x], s);
    assert [x][..0] == [];
  }

  /** The sum of a list of segments is the first value plus the sum of the rest. */
  lemma SumValuesCons(ss: seq<Segment>)
    requires ss != []
    ensures Sum(SegmentValues(ss)) == ss[0].value + Sum(SegmentValues(ss[1..]))
  {
    assert SegmentValues(ss) == [ss[0].value] + SegmentValues(ss[1..]);
    SumCons(ss[0].value, SegmentValues(ss[1..]));
  }

  /** Filtering a non-empty list: the head, when it passes, before the filtered rest. */
  lemma FilterCons(ss: seq<Segment>)
    requires ss != []
    ensures var rest := Filter(ss[1..], IsPositive);
            Filter(ss, IsPositive) == if IsPositive(ss[0]) then [ss[0]] + rest else rest
  {
  }

  /** Dropping the non-positive elements never lowers a sum. */
  lemma {:induction false} PositiveFilterSum(ss: seq<Segment>)
    ensures Sum(SegmentValues(Filter(ss, IsPositive))) >= Sum(SegmentValues(ss))
  {
    if ss != [] {
      PositiveFilterSum(ss[1..]);
      var rest := Filter(ss[1..], IsPositive);
      FilterCons(ss);
      SumValuesCons(ss);
      if IsPositive(ss[0]) {
        assert ([ss[0]] + rest)[1..] == rest;
        SumValuesCons([ss[0]] + rest);
      }
    }
  }

  /** Over non-negative values, dropping the non-positive ones (zeros) keeps the sum. */
  lemma {:induction false} NonNegativeFilterSum(ss: seq<Segment>)
    requires forall i :: 0 <= i < |ss| ==> ss[i].value >= 0
    ensures Sum(SegmentValues(Filter(ss, IsPositive))) == Sum(SegmentValues(ss))
  {
    if ss != [] {
      NonNegativeFilterSum(ss[1..]);
      var rest := Filter(ss[1..], IsPositive);
      FilterCons(ss);
      SumValuesCons(ss);
      if IsPositive(ss[0]) {
        assert ([ss[0]] + rest)[1..] == rest;
        SumValuesCons([ss[0]] + rest);
      }
    }
  }

  /** The drawn segments add up to at least the applications total. */
  lemma DrawnSegmentsCoverApplications(a: Analytics)
    ensures Sum(SegmentValues(DistributionData(a))) >= CountOf(a.totalApplications)
  {
    RawSegmentsTelescope(a);
    PositiveFilterSum(RawSegments(a));
  }

  /** No total exceeds the one before it in the funnel. */
  predicate FunnelNonIncreasing(a: Analytics)
  {
    CountOf(a.totalMatched) <= CountOf(a.totalApplications) &&
    CountOf(a.totalApprovals) <= CountOf(a.totalMatched) &&
    CountOf(a.totalRealized) <= CountOf(a.totalApprovals) &&
    CountOf(a.totalFinished) <= CountOf(a.totalRealized) &&
    CountOf(a.totalCompleted) <= CountOf(a.totalFinished)
  }

  /**
   * When the funnel totals do not increase, no segment is negative, so the
   * drawn segments add up to exactly the applications total.
   */
  lemma NonIncreasingFunnelExactCover(a: Analytics)
    requires FunnelNonIncreasing(a)
    ensures Sum(SegmentValues(DistributionData(a))) == CountOf(a.totalApplications)
  {
    var raw := RawSegments(a);
    RawSegmentsTelescope(a);
    assert forall i :: 0 <= i < 6 ==> raw[i].value >= 0;
    NonNegativeFilterSum(raw);
  }

  /** The "Completed" segment is drawn exactly when some exchange was completed. */
  lemma CompletedDrawnIff(a: Analytics)
    ensures Segment("Completed", CountOf(a.totalCompleted), "#22c55e") in DistributionData(a) <==>
            CountOf(a.totalCompleted) > 0
  {
    assert RawSegments(a)[5] == Segment("Completed", CountOf(a.totalCompleted), "#22c55e");
  }

  /**
   * A segment's share of all applications, in percent: 0 when there are no
   * applications.
   */
  function Share(value: nat, totalApplications: nat): (r: real)
    ensures totalApplications == 0 ==> r == 0.0
    ensures totalApplications > 0 ==> r * totalApplications as real == (value * 100) as real
  {
    Rate(value, totalApplications, 100)
  }
}
