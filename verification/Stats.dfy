/** Robust statistics over a raw sample: median and median absolute deviation. */
module Stats {
  import opened Common

  ghost predicate Sorted(s: seq<real>) {
    forall i, j :: 0 <= i < j < |s| ==> s[i] <= s[j]
  }

  function Insert(sorted: seq<real>, x: real): (s: seq<real>)
    ensures multiset(s) == multiset(sorted) + multiset{x}
    ensures |s| == |sorted| + 1
  {
    if sorted == [] || sorted[|sorted| - 1] <= x then sorted + [x]
    else
      var n := |sorted| - 1;
      assert sorted == sorted[..n] + [sorted[n]];
      Insert(sorted[..n], x) + [sorted[n]]
  }

  /** The sample in ascending order. */
  function Sort(s: seq<real>): (r: seq<real>)
    ensures multiset(r) == multiset(s)
    ensures |r| == |s|
  {
    if s == [] then []
    else
      assert s == s[..|s| - 1] + [s[|s| - 1]];
      Insert(Sort(s[..|s| - 1]), s[|s| - 1])
  }

  function Median(s: seq<real>): Option<real> {
    if s == [] then None
    else
      var sorted, mid := Sort(s), |s| / 2;
      if |s| % 2 == 0 then Some((sorted[mid - 1] + sorted[mid]) / 2.0) else Some(sorted[mid])
  }

  function Deviations(s: seq<real>, center: real): (d: seq<real>)
    ensures |d| == |s|
  {
    seq(|s|, i requires 0 <= i < |s| => Abs(s[i] - center))
  }

  function MedianAbsoluteDeviation(s: seq<real>): Option<real> {
    var m := Median(s);
    if m.None? then None else Median(Deviations(s, m.value))
  }

  // ------------------------------------------------ facts about sorting

  lemma {:induction false} InsertSorts(sorted: seq<real>, x: real)
    requires Sorted(sorted)
    ensures Sorted(Insert(sorted, x))
  {
    if sorted != [] && sorted[|sorted| - 1] > x {
      var n := |sorted| - 1;
      InsertSorts(sorted[..n], x);
      var front := Insert(sorted[..n], x);
      forall i | 0 <= i < |front|
        ensures front[i] <= sorted[n]
      {
        assert front[i] in multiset(front);
        assert front[i] == x || front[i] in sorted[..n];
      }
    }
  }

  lemma {:induction false} SortSorts(s: seq<real>)
    ensures Sorted(Sort(s))
  {
    if s == [] {
    } else {
      SortSorts(s[..|s| - 1]);
      InsertSorts(Sort(s[..|s| - 1]), s[|s| - 1]);
    }
  }

  lemma RemovedElement(s: seq<real>, k: nat)
    requires k < |s|
    ensures multiset(RemoveAt(s, k)) == multiset(s) - multiset{s[k]}
  {
    assert s == s[..k] + [s[k]] + s[k + 1..];
  }

  lemma LastIsLargest(s: seq<real>, x: real)
    requires Sorted(s) && x in s
    ensures x <= s[|s| - 1]
  {
  }

  lemma LastsAgree(a: seq<real>, b: seq<real>)
    requires Sorted(a) && Sorted(b) && multiset(a) == multiset(b) && a != []
    ensures |a| == |b| && a[|a| - 1] == b[|b| - 1]
    ensures multiset(a[..|a| - 1]) == multiset(b[..|b| - 1])
  {
    assert |a| == |multiset(a)| == |multiset(b)| == |b|;
    var n := |a| - 1;
    assert a[n] in multiset(a) && b[n] in multiset(b);
    LastIsLargest(a, b[n]);
    LastIsLargest(b, a[n]);
    RemovedElement(a, n);
    RemovedElement(b, n);
    assert RemoveAt(a, n) == a[..n] && RemoveAt(b, n) == b[..n];
  }

  /** A sorted sequence is determined by its elements. */
  lemma {:induction false} SortedIsUnique(a: seq<real>, b: seq<real>)
    requires Sorted(a) && Sorted(b) && multiset(a) == multiset(b)
    ensures a == b
  {
    if a == [] {
      assert |b| == |multiset(b)| == 0;
    } else {
      LastsAgree(a, b);
      var n := |a| - 1;
      SortedIsUnique(a[..n], b[..n]);
      assert a == a[..n] + [a[n]] && b == b[..n] + [b[n]];
    }
  }

  lemma {:induction false} SortIsUnique(a: seq<real>, sorted: seq<real>)
    requires multiset(a) == multiset(sorted) && Sorted(sorted)
    ensures Sort(a) == sorted
  {
    SortSorts(a);
    SortedIsUnique(Sort(a), sorted);
  }

  /** Median and deviation depend on the elements of a sample only, not on their order. */
  lemma MedianIgnoresOrder(a: seq<real>, b: seq<real>)
    requires multiset(a) == multiset(b)
    ensures Median(a) == Median(b)
    ensures MedianAbsoluteDeviation(a) == MedianAbsoluteDeviation(b)
  {
    SameMedian(a, b);
    if a == [] {
    } else {
      var m := Median(a).value;
      DeviationsIgnoreOrder(a, b, m);
      SameMedian(Deviations(a, m), Deviations(b, m));
    }
  }

  lemma SameMedian(a: seq<real>, b: seq<real>)
    requires multiset(a) == multiset(b)
    ensures Median(a) == Median(b)
  {
    assert |a| == |multiset(a)| == |multiset(b)| == |b|;
    SortSorts(b);
    SortIsUnique(a, Sort(b));
  }

  lemma {:induction false} DeviationsIgnoreOrder(a: seq<real>, b: seq<real>, m: real)
    requires multiset(a) == multiset(b)
    ensures multiset(Deviations(a, m)) == multiset(Deviations(b, m))
  {
    assert |a| == |multiset(a)| == |multiset(b)| == |b|;
    if a == [] {
    } else {
      var n := |a| - 1;
      assert a[n] in multiset(b);
      var k :| 0 <= k < |b| && b[k] == a[n];
      RemovedElement(a, n);
      RemovedElement(b, k);
      DeviationsIgnoreOrder(RemoveAt(a, n), RemoveAt(b, k), m);
      RemovedDeviation(a, n, m);
      RemovedDeviation(b, k, m);
    }
  }

  lemma RemovedDeviation(s: seq<real>, k: nat, m: real)
    requires k < |s|
    ensures multiset(Deviations(s, m)) == multiset(Deviations(RemoveAt(s, k), m)) + multiset{Abs(s[k] - m)}
  {
    var d := Deviations(s, m);
    assert RemoveAt(d, k) == Deviations(RemoveAt(s, k), m);
    RemovedElement(d, k);
    assert d[k] in multiset(d);
  }
}
