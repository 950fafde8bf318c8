/**
 * `transformAnalyticsData` (app/lib/analytics-utils.ts): merges every
 * metric's buckets into one chart row per distinct date and sorts the rows
 * by date.
 *
 * The display format of a date (`format(parseISO(date), "MMM yyyy")`) is a
 * parameter, `format`, about which nothing is assumed.
 */
module Transform {
  import opened Wrappers
  import opened AnalyticsTypes

  /** The dates of a bucket list. */
  function BucketDates(bs: seq<Bucket>): set<int>
  {
    set b | b in bs :: b.date
  }

  /**
   * The count a row at date `d` ends up with after `bs` has been written to
   * it in order: that of the last bucket at `d`, since a later bucket
   * overwrites an earlier one; None when no bucket falls on `d`.
   */
  function LastCount(bs: seq<Bucket>, d: int): Option<nat>
  {
    if bs == [] then None
    else if bs[|bs| - 1].date == d then Some(bs[|bs| - 1].docCount)
    else LastCount(bs[..|bs| - 1], d)
  }

  /** There is a last count at `d` exactly when some bucket falls on `d`. */
  lemma {:induction false} LastCountDefined(bs: seq<Bucket>, d: int)
    ensures LastCount(bs, d).Some? <==> d in BucketDates(bs)
  {
    if bs != [] {
      LastCountDefined(bs[..|bs| - 1], d);
      BucketDatesSnoc(bs);
    }
  }

  /** The dates of a non-empty list: those of all but its last bucket, and the last one's. */
  lemma BucketDatesSnoc(bs: seq<Bucket>)
    requires bs != []
    ensures BucketDates(bs) == BucketDates(bs[..|bs| - 1]) + {bs[|bs| - 1].date}
  {
    assert bs == bs[..|bs| - 1] + [bs[|bs| - 1]];
  }

  /** LastCount is the count of a bucket at `d` that no later bucket at `d` follows. */
  lemma {:induction false} LastCountIsLast(bs: seq<Bucket>, d: int)
    requires LastCount(bs, d).Some?
    ensures exists i :: 0 <= i < |bs| && bs[i] == Bucket(d, LastCount(bs, d).value) &&
                        forall j :: i < j < |bs| ==> bs[j].date != d
  {
    var last := |bs| - 1;
    var init := bs[..last];
    if bs[last].date == d {
      assert bs[last] == Bucket(d, LastCount(bs, d).value);
    } else {
      assert LastCount(bs, d) == LastCount(init, d);
      LastCountIsLast(init, d);
      var i :| 0 <= i < |init| && init[i] == Bucket(d, LastCount(init, d).value) &&
               forall j :: i < j < |init| ==> init[j].date != d;
      assert bs[i] == init[i];
      forall j | i < j < |bs| ensures bs[j].date != d {
        if j < last {
          assert bs[j] == init[j];
        }
      }
    }
  }

  /** Row values after writing a metric's buckets `bs` under `key`. */
  function Overlay(vals: map<string, nat>, key: string, bs: seq<Bucket>, d: int): map<string, nat>
  {
    match LastCount(bs, d)
    case Some(c) => vals[key := c]
    case None => vals
  }

  /** The dates at which the entries contribute a bucket. */
  function DatesOf(es: seq<Entry>): set<int>
  {
    if es == [] then {} else DatesOf(es[..|es| - 1]) + BucketDates(Contributed(es[|es| - 1]))
  }

  /** The values of the row at date `d` once the entries have been processed in order. */
  function ValuesAt(es: seq<Entry>, d: int): map<string, nat>
  {
    if es == [] then map[]
    else Overlay(ValuesAt(es[..|es| - 1], d), es[|es| - 1].key, Contributed(es[|es| - 1]), d)
  }

  /** Every date carried by a bucket of a present metric. */
  function Dates(a: Analytics): set<int>
  {
    DatesOf(a.Entries())
  }

  /** The row the transformation builds for date `d`. */
  function Row(a: Analytics, d: int, format: int -> string): ChartPoint
  {
    ChartPoint(d, format(d), ValuesAt(a.Entries(), d))
  }

  function DatesIn(ps: seq<ChartPoint>): set<int>
  {
    set i | 0 <= i < |ps| :: ps[i].date
  }

  predicate StrictlyAscending(ps: seq<ChartPoint>)
  {
    forall i, j :: 0 <= i < j < |ps| ==> ps[i].date < ps[j].date
  }

  predicate DistinctDates(ps: seq<ChartPoint>)
  {
    forall i, j :: 0 <= i < j < |ps| ==> ps[i].date != ps[j].date
  }

  /** A date no entry contributes has an empty row. */
  lemma {:induction false} ValuesAtOutside(es: seq<Entry>, d: int)
    requires d !in DatesOf(es)
    ensures ValuesAt(es, d) == map[]
  {
    if es != [] {
      ValuesAtOutside(es[..|es| - 1], d);
      LastCountDefined(Contributed(es[|es| - 1]), d);
    }
  }

  /** Putting before an ascending list a point earlier than all of it keeps it ascending. */
  lemma PrependAscending(x: ChartPoint, s: seq<ChartPoint>)
    requires StrictlyAscending(s)
    requires forall q :: q in s ==> x.date < q.date
    ensures StrictlyAscending([x] + s)
  {
    forall i, j | 0 <= i < j < |[x] + s| ensures ([x] + s)[i].date < ([x] + s)[j].date {
      if i == 0 {
        assert ([x] + s)[j] == s[j - 1];
        assert s[j - 1] in s;
      } else {
        assert ([x] + s)[i] == s[i - 1] && ([x] + s)[j] == s[j - 1];
      }
    }
  }

  /** Inserts a point into a date-sorted list at its place. */
  function Insert(acc: seq<ChartPoint>, p: ChartPoint): (r: seq<ChartPoint>)
    requires StrictlyAscending(acc)
    requires forall q :: q in acc ==> q.date != p.date
    ensures StrictlyAscending(r)
    ensures multiset(r) == multiset(acc) + multiset{p}
  {
    if acc == [] || p.date < acc[0].date then
      PrependAscending(p, acc);
      [p] + acc
    else
      var rest := Insert(acc[1..], p);
      HeadBelowInserted(acc, p, rest);
      PrependAscending(acc[0], rest);
      assert acc == [acc[0]] + acc[1..];
      [acc[0]] + rest
  }

  /** The head of an ascending list stays below everything once a later point joins its tail. */
  lemma HeadBelowInserted(acc: seq<ChartPoint>, p: ChartPoint, rest: seq<ChartPoint>)
    requires acc != [] && StrictlyAscending(acc) && acc[0].date <= p.date
    requires forall q :: q in acc ==> q.date != p.date
    requires multiset(rest) == multiset(acc[1..]) + multiset{p}
    ensures forall q :: q in rest ==> acc[0].date < q.date
  {
    forall q | q in rest ensures acc[0].date < q.date {
      assert q in multiset(rest);
      if q != p {
        assert q in multiset(acc[1..]);
        var k :| 0 <= k < |acc[1..]| && acc[1..][k] == q;
        assert acc[k + 1] == q;
      } else {
        assert acc[0] in acc;
      }
    }
  }

  /**
   * The final `.sort` by date. Rows come from a map keyed by date, so no two
   * share a date, and the result is strictly ascending.
   */
  method SortByDate(pts: seq<ChartPoint>) returns (sorted: seq<ChartPoint>)
    requires DistinctDates(pts)
    ensures StrictlyAscending(sorted)
    ensures multiset(sorted) == multiset(pts)
  {
    sorted := [];
    var k := 0;
    while k < |pts|
      invariant 0 <= k <= |pts|
      invariant StrictlyAscending(sorted)
      invariant multiset(sorted) == multiset(pts[..k])
    {
      UnsortedDateAbsent(pts, k, sorted);
      assert pts[..k + 1] == pts[..k] + [pts[k]];
      sorted := Insert(sorted, pts[k]);
      k := k + 1;
    }
    assert pts[..k] == pts;
  }

  /** A point not yet inserted has a date that no point sorted so far carries. */
  lemma UnsortedDateAbsent(pts: seq<ChartPoint>, k: nat, sorted: seq<ChartPoint>)
    requires DistinctDates(pts) && k < |pts|
    requires multiset(sorted) == multiset(pts[..k])
    ensures forall q :: q in sorted ==> q.date != pts[k].date
  {
    forall q | q in sorted ensures q.date != pts[k].date {
      assert q in multiset(pts[..k]);
      var j :| 0 <= j < k && pts[..k][j] == q;
      assert q == pts[j];
    }
  }

  /**
   * The state of the date map once the entries `done` have been processed
   * and, of the current entry (named `key`), the buckets `bs`.
   */
  ghost predicate Built(dateMap: map<int, ChartPoint>, done: seq<Entry>, key: string, bs: seq<Bucket>,
                        format: int -> string)
  {
    && dateMap.Keys == DatesOf(done) + BucketDates(bs)
    && forall d :: d in dateMap ==> dateMap[d] == ChartPoint(d, format(d), Overlay(ValuesAt(done, d), key, bs, d))
  }

  /** `order` lists the map's dates in insertion order, each once. */
  ghost predicate Tracks(order: seq<int>, dateMap: map<int, ChartPoint>)
  {
    && (forall m, n :: 0 <= m < n < |order| ==> order[m] != order[n])
    && (forall d :: d in order <==> d in dateMap)
    && |order| == |dateMap.Keys|
  }

  /** The last bucket written decides a row's value at its date and leaves other dates alone. */
  lemma LastCountAppend(bs: seq<Bucket>, b: Bucket, d: int)
    ensures LastCount(bs + [b], d) == if b.date == d then Some(b.docCount) else LastCount(bs, d)
  {
    assert (bs + [b])[..|bs + [b]| - 1] == bs;
  }

  /** Writing one more bucket: create its row if the date is new, then set the metric's value. */
  lemma WriteBucket(dateMap: map<int, ChartPoint>, done: seq<Entry>, key: string, bs: seq<Bucket>, b: Bucket,
                    format: int -> string)
    requires Built(dateMap, done, key, bs, format)
    ensures Built(Put(dateMap, key, b, format), done, key, bs + [b], format)
  {
    var next := Put(dateMap, key, b, format);
    assert (bs + [b])[..|bs|] == bs;
    BucketDatesSnoc(bs + [b]);
    assert next.Keys == dateMap.Keys + {b.date};
    forall d | d in next
      ensures next[d] == ChartPoint(d, format(d), Overlay(ValuesAt(done, d), key, bs + [b], d))
    {
      RowAfterWrite(dateMap, done, key, bs, b, d, format);
    }
  }

  /** The row at one date after a bucket is written. */
  lemma RowAfterWrite(dateMap: map<int, ChartPoint>, done: seq<Entry>, key: string, bs: seq<Bucket>, b: Bucket,
                      d: int, format: int -> string)
    requires Built(dateMap, done, key, bs, format)
    requires d in Put(dateMap, key, b, format)
    ensures Put(dateMap, key, b, format)[d] ==
            ChartPoint(d, format(d), Overlay(ValuesAt(done, d), key, bs + [b], d))
  {
    LastCountAppend(bs, b, d);
    if d == b.date {
      RowAtBucket(dateMap, done, key, bs, b, format);
    }
  }

  /** The row at the bucket's date: the metric's value is the bucket's count, the others are kept. */
  lemma RowAtBucket(dateMap: map<int, ChartPoint>, done: seq<Entry>, key: string, bs: seq<Bucket>, b: Bucket,
                    format: int -> string)
    requires Built(dateMap, done, key, bs, format)
    ensures Put(dateMap, key, b, format)[b.date] ==
            ChartPoint(b.date, format(b.date), ValuesAt(done, b.date)[key := b.docCount])
  {
    var d := b.date;
    var vals := ValuesAt(done, d);
    if d !in dateMap {
      assert d !in BucketDates(bs);
      ValuesAtOutside(done, d);
    } else {
      assert dateMap[d] == ChartPoint(d, format(d), Overlay(vals, key, bs, d));
    }
    assert Overlay(vals, key, bs, d)[key := b.docCount] == vals[key := b.docCount];
  }

  /** Appending a new date to `order` as its row is created keeps `order` in step with the map. */
  lemma TrackNewDate(order: seq<int>, dateMap: map<int, ChartPoint>, d: int, p: ChartPoint)
    requires Tracks(order, dateMap) && d !in dateMap
    ensures Tracks(order + [d], dateMap[d := p])
  {
    var o := order + [d];
    assert dateMap[d := p].Keys == dateMap.Keys + {d};
    assert |dateMap.Keys + {d}| == |dateMap.Keys| + 1;
    forall m, n | 0 <= m < n < |o| ensures o[m] != o[n] {
      if n == |order| {
        assert o[m] == order[m] && order[m] in order;
      } else {
        assert o[m] == order[m] && o[n] == order[n];
      }
    }
    forall x ensures x in o <==> x in dateMap[d := p] {
      assert x in o <==> x in order || x == d;
    }
  }

  /** Updating an existing row leaves `order` in step with the map. */
  lemma TrackUpdate(order: seq<int>, dateMap: map<int, ChartPoint>, d: int, p: ChartPoint)
    requires Tracks(order, dateMap) && d in dateMap
    ensures Tracks(order, dateMap[d := p])
  {
    assert dateMap[d := p].Keys == dateMap.Keys;
  }

  /** Once all of an entry's buckets are written, the entry counts as processed. */
  lemma FinishEntry(dateMap: map<int, ChartPoint>, done: seq<Entry>, e: Entry, format: int -> string)
    requires Built(dateMap, done, e.key, Contributed(e), format)
    ensures Built(dateMap, done + [e], "", [], format)
  {
    var es := done + [e];
    assert es[..|es| - 1] == done;
  }

  /** Sorting the rows collected from a completed date map yields the transformation's result. */
  lemma SortedRows(es: seq<Entry>, dateMap: map<int, ChartPoint>, order: seq<int>, pts: seq<ChartPoint>,
                   points: seq<ChartPoint>, format: int -> string)
    requires dateMap.Keys == DatesOf(es)
    requires forall d :: d in dateMap ==> dateMap[d] == ChartPoint(d, format(d), ValuesAt(es, d))
    requires Tracks(order, dateMap)
    requires |pts| == |order| && forall m :: 0 <= m < |order| ==> order[m] in dateMap && pts[m] == dateMap[order[m]]
    requires multiset(points) == multiset(pts)
    ensures DatesIn(points) == DatesOf(es)
    ensures |points| == |DatesOf(es)|
    ensures forall i :: 0 <= i < |points| ==> points[i] == ChartPoint(points[i].date, format(points[i].date), ValuesAt(es, points[i].date))
  {
    SortedRowValues(es, dateMap, order, pts, points, format);
    SortedRowDates(dateMap, order, pts, points);
    assert |multiset(points)| == |multiset(pts)|;
  }

  /** Every sorted row is a row of the date map, so it holds the values of its date. */
  lemma SortedRowValues(es: seq<Entry>, dateMap: map<int, ChartPoint>, order: seq<int>, pts: seq<ChartPoint>,
                        points: seq<ChartPoint>, format: int -> string)
    requires forall d :: d in dateMap ==> dateMap[d] == ChartPoint(d, format(d), ValuesAt(es, d))
    requires |pts| == |order| && forall m :: 0 <= m < |order| ==> order[m] in dateMap && pts[m] == dateMap[order[m]]
    requires multiset(points) == multiset(pts)
    ensures forall i :: 0 <= i < |points| ==> points[i] == ChartPoint(points[i].date, format(points[i].date), ValuesAt(es, points[i].date))
  {
    forall i | 0 <= i < |points|
      ensures points[i] == ChartPoint(points[i].date, format(points[i].date), ValuesAt(es, points[i].date))
    {
      assert points[i] in multiset(pts);
      var m :| 0 <= m < |pts| && pts[m] == points[i];
      var d := order[m];
      assert points[i] == dateMap[d] == ChartPoint(d, format(d), ValuesAt(es, d));
    }
  }

  /** The sorted rows carry exactly the dates of the date map. */
  lemma SortedRowDates(dateMap: map<int, ChartPoint>, order: seq<int>, pts: seq<ChartPoint>, points: seq<ChartPoint>)
    requires forall d :: d in dateMap ==> dateMap[d].date == d
    requires forall d :: d in order <==> d in dateMap
    requires |pts| == |order| && forall m :: 0 <= m < |order| ==> order[m] in dateMap && pts[m] == dateMap[order[m]]
    requires multiset(points) == multiset(pts)
    ensures DatesIn(points) == dateMap.Keys
  {
    forall d ensures d in DatesIn(points) <==> d in dateMap {
      if d in dateMap {
        var m :| 0 <= m < |order| && order[m] == d;
        assert pts[m] in multiset(points);
        var n :| 0 <= n < |points| && points[n] == pts[m];
        assert points[n].date == d;
      }
      if d in DatesIn(points) {
        var n :| 0 <= n < |points| && points[n].date == d;
        assert points[n] in multiset(pts);
        var m :| 0 <= m < |pts| && pts[m] == points[n];
        assert order[m] == d;
      }
    }
  }

  /**
   * The date map after one bucket of the metric `key`: the row of the
   * bucket's date, created empty if missing, gets the bucket's count under
   * `key`.
   */
  function Put(dateMap: map<int, ChartPoint>, key: string, b: Bucket, format: int -> string): map<int, ChartPoint>
  {
    var row := if b.date in dateMap then dateMap[b.date] else ChartPoint(b.date, format(b.date), map[]);
    dateMap[b.date := row.(values := row.values[key := b.docCount])]
  }

  /**
   * One bucket of the inner `buckets.forEach`: the row of its date is
   * created (and its date recorded in `order`) if missing, then the metric's
   * value on that row is set to the bucket's count.
   */
  method PutBucket(dateMap0: map<int, ChartPoint>, order0: seq<int>, key: string, b: Bucket, format: int -> string)
    returns (dateMap: map<int, ChartPoint>, order: seq<int>)
    requires Tracks(order0, dateMap0)
    ensures dateMap == Put(dateMap0, key, b, format)
    ensures order == if b.date in dateMap0 then order0 else order0 + [b.date]
    ensures Tracks(order, dateMap)
  {
    dateMap, order := dateMap0, order0;
    if b.date !in dateMap {
      TrackNewDate(order, dateMap, b.date, ChartPoint(b.date, format(b.date), map[]));
      dateMap := dateMap[b.date := ChartPoint(b.date, format(b.date), map[])];
      order := order + [b.date];
    }
    var p := dateMap[b.date];
    TrackUpdate(order, dateMap, b.date, p.(values := p.values[key := b.docCount]));
    dateMap := dateMap[b.date := p.(values := p.values[key := b.docCount])];
  }

  /**
   * The body of `metrics.forEach` for one entry: when the metric is
   * present, its chosen buckets are written under its key.
   */
  method WriteMetric(dateMap0: map<int, ChartPoint>, order0: seq<int>, e: Entry, format: int -> string)
    returns (dateMap: map<int, ChartPoint>, order: seq<int>)
    requires Tracks(order0, dateMap0)
    ensures dateMap == Written(dateMap0, e.key, Contributed(e), format) && Tracks(order, dateMap)
  {
    dateMap, order := dateMap0, order0;
    if e.metric.Some? {
      dateMap, order := WriteBuckets(dateMap, order, e.key, ChosenBuckets(e.metric.value), format);
    }
  }

  /** The date map after the buckets `bs` of the metric `key` have been written to `m` in order. */
  function Written(m: map<int, ChartPoint>, key: string, bs: seq<Bucket>, format: int -> string): map<int, ChartPoint>
  {
    if bs == [] then m
    else
      var last := bs[|bs| - 1];
      Put(Written(m, key, bs[..|bs| - 1], format), key, last, format)
  }

  /** Writing a metric's buckets in order turns a map built up to that metric into one built through it. */
  lemma {:induction false} WrittenBuilt(m: map<int, ChartPoint>, done: seq<Entry>, key: string, bs: seq<Bucket>,
                                        format: int -> string)
    requires Built(m, done, key, [], format)
    ensures Built(Written(m, key, bs, format), done, key, bs, format)
  {
    if bs != [] {
      var init, last := bs[..|bs| - 1], bs[|bs| - 1];
      WrittenBuilt(m, done, key, init, format);
      WriteBucket(Written(m, key, init, format), done, key, init, last, format);
      assert init + [last] == bs;
    }
  }

  /**
   * `buckets.forEach` over one metric's buckets, named `key`: each bucket
   * is written in turn, and the insertion order keeps up with the map.
   */
  method WriteBuckets(dateMap0: map<int, ChartPoint>, order0: seq<int>, key: string, bs: seq<Bucket>,
                      format: int -> string)
    returns (dateMap: map<int, ChartPoint>, order: seq<int>)
    requires Tracks(order0, dateMap0)
    ensures dateMap == Written(dateMap0, key, bs, format) && Tracks(order, dateMap)
  {
    dateMap, order := dateMap0, order0;
    var j := 0;
    while j < |bs|
      invariant 0 <= j <= |bs|
      invariant dateMap == Written(dateMap0, key, bs[..j], format)
      invariant Tracks(order, dateMap)
    {
      dateMap, order := PutBucket(dateMap, order, key, bs[j], format);
      assert bs[..j + 1][..j] == bs[..j];
      j := j + 1;
    }
    assert bs[..j] == bs;
  }

  /** The date map once the entries `es` have been written in order, starting from an empty map. */
  function Merged(es: seq<Entry>, format: int -> string): map<int, ChartPoint>
  {
    if es == [] then map[]
    else Written(Merged(es[..|es| - 1], format), es[|es| - 1].key, Contributed(es[|es| - 1]), format)
  }

  /** Merging the entries in order builds the map of every processed entry. */
  lemma {:induction false} MergedBuilt(es: seq<Entry>, format: int -> string)
    ensures Built(Merged(es, format), es, "", [], format)
  {
    if es == [] {
      assert BucketDates([]) == {};
    } else {
      var init, last := es[..|es| - 1], es[|es| - 1];
      MergedBuilt(init, format);
      WrittenBuilt(Merged(init, format), init, last.key, Contributed(last), format);
      FinishEntry(Merged(es, format), init, last, format);
      assert init + [last] == es;
    }
  }

  /** The merged map has a row for exactly the entries' dates, holding the values of its date. */
  lemma MergedRows(es: seq<Entry>, format: int -> string)
    ensures Merged(es, format).Keys == DatesOf(es)
    ensures forall d :: d in Merged(es, format) ==> Merged(es, format)[d] == ChartPoint(d, format(d), ValuesAt(es, d))
  {
    MergedBuilt(es, format);
    assert BucketDates([]) == {};
  }

  /** `metrics.forEach`: every entry is written in turn into an initially empty date map. */
  method MergeEntries(es: seq<Entry>, format: int -> string) returns (dateMap: map<int, ChartPoint>, order: seq<int>)
    ensures dateMap == Merged(es, format) && Tracks(order, dateMap)
    ensures dateMap.Keys == DatesOf(es)
    ensures forall d :: d in dateMap ==> dateMap[d] == ChartPoint(d, format(d), ValuesAt(es, d))
  {
    dateMap, order := map[], [];
    var i := 0;
    while i < |es|
      invariant 0 <= i <= |es|
      invariant dateMap == Merged(es[..i], format)
      invariant Tracks(order, dateMap)
    {
      dateMap, order := WriteMetric(dateMap, order, es[i], format);
      assert es[..i + 1][..i] == es[..i];
      i := i + 1;
    }
    assert es[..i] == es;
    MergedRows(es, format);
  }

  /**
   * `transformAnalyticsData`: one row per distinct date of any present
   * metric's buckets, strictly ascending by date, each row being `Row` of its
   * date.
   */
  method TransformAnalyticsData(a: Analytics, format: int -> string) returns (points: seq<ChartPoint>)
    ensures StrictlyAscending(points)
    ensures DatesIn(points) == Dates(a)
    ensures |points| == |Dates(a)|
    ensures forall i :: 0 <= i < |points| ==> points[i] == Row(a, points[i].date, format)
  {
    var dateMap, order := MergeEntries(a.Entries(), format);
    var pts := RowsInOrder(dateMap, order);
    assert forall m :: 0 <= m < |pts| ==> pts[m].date == order[m];
    points := SortByDate(pts);
    SortedRows(a.Entries(), dateMap, order, pts, points, format);
  }

  /** `Array.from(dateMap.values())`: the rows of the map in the insertion order of their dates. */
  method RowsInOrder(dateMap: map<int, ChartPoint>, order: seq<int>) returns (pts: seq<ChartPoint>)
    requires forall m :: 0 <= m < |order| ==> order[m] in dateMap
    ensures |pts| == |order|
    ensures forall m :: 0 <= m < |order| ==> order[m] in dateMap && pts[m] == dateMap[order[m]]
  {
    pts := [];
    var k := 0;
    while k < |order|
      invariant 0 <= k <= |order|
      invariant |pts| == k
      invariant forall m :: 0 <= m < k ==> order[m] in dateMap && pts[m] == dateMap[order[m]]
    {
      pts := pts + [dateMap[order[k]]];
      k := k + 1;
    }
  }

  // Properties of the merged rows

  predicate DistinctKeys(es: seq<Entry>)
  {
    forall m, n :: 0 <= m < n < |es| ==> es[m].key != es[n].key
  }

  /** A key no entry carries never appears on a row. */
  lemma {:induction false} ValuesAtOtherKey(es: seq<Entry>, d: int, k: string)
    requires forall i :: 0 <= i < |es| ==> es[i].key != k
    ensures k !in ValuesAt(es, d)
  {
    if es != [] {
      ValuesAtOtherKey(es[..|es| - 1], d, k);
    }
  }

  /**
   * With distinct entry keys, a row carries entry `i`'s key exactly when that
   * entry has a bucket at the row's date, and then holds the last such
   * bucket's count; the other entries do not disturb it.
   */
  lemma {:induction false} ValuesAtEntry(es: seq<Entry>, d: int, i: nat)
    requires DistinctKeys(es) && i < |es|
    ensures es[i].key in ValuesAt(es, d) <==> LastCount(Contributed(es[i]), d).Some?
    ensures es[i].key in ValuesAt(es, d) ==> ValuesAt(es, d)[es[i].key] == LastCount(Contributed(es[i]), d).value
  {
    var init := es[..|es| - 1];
    if i == |es| - 1 {
      if LastCount(Contributed(es[i]), d).None? {
        ValuesAtOtherKey(init, d, es[i].key);
      }
    } else {
      assert init[i] == es[i];
      ValuesAtEntry(init, d, i);
    }
  }

  /**
   * A row carries metric `k` if and only if `k` is present and has a bucket
   * at the row's date, and then its value is the count of the last such
   * bucket.
   */
  lemma RowValues(a: Analytics, d: int, k: string)
    ensures k in ValuesAt(a.Entries(), d) <==>
              a.Get(k).Some? && d in BucketDates(ChosenBuckets(a.Get(k).value))
    ensures k in ValuesAt(a.Entries(), d) ==>
              LastCount(ChosenBuckets(a.Get(k).value), d).Some? &&
              ValuesAt(a.Entries(), d)[k] == LastCount(ChosenBuckets(a.Get(k).value), d).value
  {
    EntriesFollowKeys(a);
    if a.Get(k).Some? {
      LastCountDefined(ChosenBuckets(a.Get(k).value), d);
    }
    if k in ResponseKeys {
      var i :| 0 <= i < |ResponseKeys| && ResponseKeys[i] == k;
      ValuesAtEntry(a.Entries(), d, i);
    } else {
      UnknownKeyAbsent(a, k);
      ValuesAtOtherKey(a.Entries(), d, k);
    }
  }

  /** A date is contributed by a list of entries iff one of them has a bucket there. */
  lemma {:induction false} DatesOfMember(es: seq<Entry>, d: int)
    ensures d in DatesOf(es) <==> exists i :: 0 <= i < |es| && d in BucketDates(Contributed(es[i]))
  {
    if es != [] {
      var init := es[..|es| - 1];
      DatesOfMember(init, d);
      if exists i :: 0 <= i < |init| && d in BucketDates(Contributed(init[i])) {
        var i :| 0 <= i < |init| && d in BucketDates(Contributed(init[i]));
        assert es[i] == init[i];
      }
      if exists i :: 0 <= i < |es| && d in BucketDates(Contributed(es[i])) {
        var i :| 0 <= i < |es| && d in BucketDates(Contributed(es[i]));
        if i < |init| {
          assert init[i] == es[i];
        }
      }
    }
  }

  /** The rows' dates are exactly the dates of the buckets of the present metrics. */
  lemma DatesAreBucketDates(a: Analytics, d: int)
    ensures d in Dates(a) <==>
              exists k :: k in ResponseKeys && a.Get(k).Some? && d in BucketDates(ChosenBuckets(a.Get(k).value))
  {
    EntriesFollowKeys(a);
    DatesOfMember(a.Entries(), d);
    if d in Dates(a) {
      var i :| 0 <= i < |a.Entries()| && d in BucketDates(Contributed(a.Entries()[i]));
      assert ResponseKeys[i] in ResponseKeys;
    }
    if exists k :: k in ResponseKeys && a.Get(k).Some? && d in BucketDates(ChosenBuckets(a.Get(k).value)) {
      var k :| k in ResponseKeys && a.Get(k).Some? && d in BucketDates(ChosenBuckets(a.Get(k).value));
      var i :| 0 <= i < |ResponseKeys| && ResponseKeys[i] == k;
      assert d in BucketDates(Contributed(a.Entries()[i]));
    }
  }

  /** A response whose metrics are all absent or without buckets yields no rows. */
  lemma NoBucketsNoRows(a: Analytics)
    requires forall k :: k in ResponseKeys && a.Get(k).Some? ==> ChosenBuckets(a.Get(k).value) == []
    ensures Dates(a) == {}
  {
    forall d ensures d !in Dates(a) {
      DatesAreBucketDates(a, d);
    }
  }

  /**
   * A present but empty `applications` collection hides a metric's `people`
   * buckets: the metric then appears on no row.
   */
  lemma EmptyApplicationsHidePeople(a: Analytics, k: string, d: int)
    requires a.Get(k).Some? && a.Get(k).value.applications == Some([])
    ensures k !in ValuesAt(a.Entries(), d)
  {
    RowValues(a, d, k);
  }

  /** Without its first row, an ascending list has all its dates but the first one. */
  lemma DatesInTail(ps: seq<ChartPoint>)
    requires ps != [] && StrictlyAscending(ps)
    ensures DatesIn(ps[1..]) == DatesIn(ps) - {ps[0].date}
  {
    forall d ensures d in DatesIn(ps[1..]) <==> d in DatesIn(ps) && d != ps[0].date {
      if d in DatesIn(ps) && d != ps[0].date {
        var i :| 0 <= i < |ps| && ps[i].date == d;
        assert ps[1..][i - 1] == ps[i];
      }
      if d in DatesIn(ps[1..]) {
        var i :| 0 <= i < |ps[1..]| && ps[1..][i].date == d;
        assert ps[i + 1].date == d;
      }
    }
  }

  /** Two strictly ascending row lists over the same dates that agree at each date are equal. */
  lemma {:induction false} AscendingUnique(ps: seq<ChartPoint>, qs: seq<ChartPoint>)
    requires StrictlyAscending(ps) && StrictlyAscending(qs)
    requires DatesIn(ps) == DatesIn(qs)
    requires forall i, j :: 0 <= i < |ps| && 0 <= j < |qs| && ps[i].date == qs[j].date ==> ps[i] == qs[j]
    ensures ps == qs
  {
    if ps != [] { assert ps[0].date in DatesIn(ps); }
    if qs != [] { assert qs[0].date in DatesIn(qs); }
    if ps == [] || qs == [] {
    } else {
      assert ps[0].date in DatesIn(qs);
      assert qs[0].date in DatesIn(ps);
      assert ps[0].date == qs[0].date;
      DatesInTail(ps);
      DatesInTail(qs);
      AscendingUnique(ps[1..], qs[1..]);
      assert ps == [ps[0]] + ps[1..] && qs == [qs[0]] + qs[1..];
    }
  }

  /**
   * The result of `transformAnalyticsData` is determined by the response:
   * any two lists meeting its postcondition are equal.
   */
  lemma TransformDeterministic(a: Analytics, format: int -> string, ps: seq<ChartPoint>, qs: seq<ChartPoint>)
    requires StrictlyAscending(ps) && DatesIn(ps) == Dates(a)
    requires forall i :: 0 <= i < |ps| ==> ps[i] == Row(a, ps[i].date, format)
    requires StrictlyAscending(qs) && DatesIn(qs) == Dates(a)
    requires forall i :: 0 <= i < |qs| ==> qs[i] == Row(a, qs[i].date, format)
    ensures ps == qs
  {
    AscendingUnique(ps, qs);
  }
}
