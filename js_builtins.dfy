/**
 * The JavaScript built-ins the dashboard's computations rely on, each defined
 * once: Math.round, Array.prototype.reduce summing numbers,
 * Array.prototype.slice (negative indices count from the end),
 * Array.prototype.map, Array.prototype.filter and String.prototype.replace
 * with a string pattern (first occurrence only); and the one fact about
 * division that every threshold test needs.
 */
module JsBuiltins {

  /** Math.round: the nearest integer, a half rounding toward +infinity. */
  function Round(x: real): (r: int)
    ensures x - 1.0 / 2.0 < r as real <= x + 1.0 / 2.0
  {
    (x + 1.0 / 2.0).Floor
  }

  lemma RoundMonotone(x: real, y: real)
    requires x <= y
    ensures Round(x) <= Round(y)
  {
    var a, b := x + 1.0 / 2.0, y + 1.0 / 2.0;
    assert a.Floor as real <= a <= b < b.Floor as real + 1.0;
  }

  /** Comparing a quotient over a positive divisor with a bound is comparing the dividend with the bound times the divisor. */
  lemma QuotientCompare(x: real, y: real, t: real)
    requires y > 0.0
    ensures x / y > t <==> x > t * y
    ensures x / y < t <==> x < t * y
  {
    var q := x / y;
    assert q * y == x;
    if q > t {
      assert q * y > t * y;
    }
    if q < t {
      assert q * y < t * y;
    }
  }

  /** `s.reduce((a, b) => a + b, 0)`: a left fold, so the last element is added last. */
  function Sum(s: seq<int>): int
  {
    if s == [] then 0 else Sum(s[..|s| - 1]) + s[|s| - 1]
  }

  lemma {:induction false} SumConcat(a: seq<int>, b: seq<int>)
    ensures Sum(a + b) == Sum(a) + Sum(b)
  {
    if b == [] {
      assert a + b == a;
    } else {
      assert (a + b)[..|a + b| - 1] == a + b[..|b| - 1];
      SumConcat(a, b[..|b| - 1]);
    }
  }

  /** A sum lies between length times the smallest element and length times the largest. */
  lemma {:induction false} SumBounds(s: seq<int>, lo: int, hi: int)
    requires forall i :: 0 <= i < |s| ==> lo <= s[i] <= hi
    ensures |s| * lo <= Sum(s) <= |s| * hi
  {
    if s != [] {
      var init := s[..|s| - 1];
      SumBounds(init, lo, hi);
      assert |s| * lo == |init| * lo + lo;
      assert |s| * hi == |init| * hi + hi;
    }
  }

  lemma {:induction false} SumNonNegative(s: seq<int>)
    requires forall i :: 0 <= i < |s| ==> 0 <= s[i]
    ensures 0 <= Sum(s)
  {
    if s != [] {
      SumNonNegative(s[..|s| - 1]);
    }
  }

  /** Where a (possibly negative) slice index lands in a sequence of length n. */
  function ClampIndex(i: int, n: nat): (k: nat)
    ensures k <= n
    ensures 0 <= i <= n ==> k == i
    ensures i < 0 && 0 <= n + i ==> k == n + i
    ensures n + i < 0 ==> k == 0
    ensures n < i ==> k == n
  {
    if i < 0 then (if n + i < 0 then 0 else n + i) else if i > n then n else i
  }

  /** `s.slice(begin, end)`; an omitted end is `|s|`. */
  function Slice<T>(s: seq<T>, begin: int, end: int): (r: seq<T>)
    ensures |r| <= |s|
    ensures ClampIndex(begin, |s|) <= ClampIndex(end, |s|) ==>
              r == s[ClampIndex(begin, |s|)..ClampIndex(end, |s|)]
    ensures ClampIndex(end, |s|) < ClampIndex(begin, |s|) ==> r == []
  {
    var b, e := ClampIndex(begin, |s|), ClampIndex(end, |s|);
    if b <= e then s[b..e] else []
  }

  /** `s.map(f)`: `f` applied to each element, in order. */
  function Map<T, U>(s: seq<T>, f: T -> U): (r: seq<U>)
    ensures |r| == |s|
    ensures forall i :: 0 <= i < |s| ==> r[i] == f(s[i])
  {
    seq(|s|, i requires 0 <= i < |s| => f(s[i]))
  }

  /** `a` is `b` with some elements left out, the others kept in order. */
  predicate IsSubsequence<T(==)>(a: seq<T>, b: seq<T>)
    decreases |b|
  {
    a == [] || (b != [] && if a[0] == b[0] then IsSubsequence(a[1..], b[1..]) else IsSubsequence(a, b[1..]))
  }

  /** `s.filter(keep)`: the elements satisfying `keep`, each as often as in `s`, in their order in `s`. */
  function Filter<T(==, !new)>(s: seq<T>, keep: T -> bool): (r: seq<T>)
    ensures forall x :: x in r ==> keep(x)
    ensures forall x :: multiset(r)[x] == if keep(x) then multiset(s)[x] else 0
    ensures IsSubsequence(r, s)
  {
    if s == [] then []
    else
      var rest := Filter(s[1..], keep);
      assert s == [s[0]] + s[1..];
      if keep(s[0]) then [s[0]] + rest else rest
  }

  /** An element is kept by a filter exactly when it occurs in the list and passes the test. */
  lemma FilterMembers<T(!new)>(s: seq<T>, keep: T -> bool)
    ensures forall x :: x in Filter(s, keep) <==> x in s && keep(x)
  {
    var r := Filter(s, keep);
    forall x ensures x in r <==> x in s && keep(x) {
      assert x in r <==> multiset(r)[x] > 0;
      assert x in s <==> multiset(s)[x] > 0;
    }
  }

  /** `pat` occurs in `s` starting at index `i`. */
  predicate OccursAt(s: string, pat: string, i: int)
  {
    0 <= i && i + |pat| <= |s| && s[i..i + |pat|] == pat
  }

  /** `s.indexOf(pat)`: the first index where `pat` occurs in `s`, or -1 when it occurs nowhere. */
  function IndexOf(s: string, pat: string): (r: int)
    ensures -1 <= r
    ensures r == -1 <==> forall i :: !OccursAt(s, pat, i)
    ensures 0 <= r ==> OccursAt(s, pat, r) && forall j :: j < r ==> !OccursAt(s, pat, j)
    decreases |s|
  {
    if |pat| <= |s| && s[..|pat|] == pat then
      assert OccursAt(s, pat, 0);
      0
    else if s == [] then
      assert forall i :: !OccursAt(s, pat, i);
      -1
    else
      var k := IndexOf(s[1..], pat);
      IndexOfShift(s, pat, k);
      if k < 0 then -1 else k + 1
  }

  /** The first occurrence in `s[1..]`, shifted by one, is the first in `s` when `s` does not start with `pat`. */
  lemma IndexOfShift(s: string, pat: string, k: int)
    requires s != [] && !(|pat| <= |s| && s[..|pat|] == pat)
    requires -1 <= k
    requires k == -1 <==> forall i :: !OccursAt(s[1..], pat, i)
    requires 0 <= k ==> OccursAt(s[1..], pat, k) && forall j :: j < k ==> !OccursAt(s[1..], pat, j)
    ensures var r := if k < 0 then -1 else k + 1;
            (r == -1 <==> forall i :: !OccursAt(s, pat, i)) &&
            (0 <= r ==> OccursAt(s, pat, r) && forall j :: j < r ==> !OccursAt(s, pat, j))
  {
    ShiftAll(s, pat);
    assert !OccursAt(s, pat, 0);
    if k >= 0 {
      assert OccursAt(s, pat, k + 1);
    } else {
      forall i ensures !OccursAt(s, pat, i) {
        if 0 < i {
          assert !OccursAt(s[1..], pat, i - 1);
        }
      }
    }
  }

  /** `s.replace(pat, rep)` with a string pattern: only the first occurrence is replaced. */
  function ReplaceFirst(s: string, pat: string, rep: string): (r: string)
    ensures (forall i :: !OccursAt(s, pat, i)) ==> r == s
    ensures forall i :: OccursAt(s, pat, i) && (forall j :: j < i ==> !OccursAt(s, pat, j)) ==>
              r == s[..i] + rep + s[i + |pat|..]
  {
    var i := IndexOf(s, pat);
    if i < 0 then s else s[..i] + rep + s[i + |pat|..]
  }

  /** An occurrence in `s` past its first character is an occurrence in `s[1..]`, one index earlier. */
  lemma ShiftAll(s: string, pat: string)
    requires s != []
    ensures forall i :: 0 < i ==> (OccursAt(s, pat, i) <==> OccursAt(s[1..], pat, i - 1))
  {
    forall i | 0 < i ensures OccursAt(s, pat, i) <==> OccursAt(s[1..], pat, i - 1) {
      if i + |pat| <= |s| {
        assert s[1..][i - 1..i - 1 + |pat|] == s[i..i + |pat|];
      }
    }
  }
}
