/** What median and median absolute deviation mean, by counting elements of the sample. */
module StatsMeaning {
  import opened Common
  import opened Stats

  /** Median of an odd or even sample: the mean of its two middle elements, which may be one. */
  lemma MedianIsTheMiddle(s: seq<real>, sorted: seq<real>)
    requires s != [] && Sorted(sorted) && multiset(sorted) == multiset(s)
    ensures |sorted| == |s|
    ensures Median(s) == Some((sorted[(|s| - 1) / 2] + sorted[|s| / 2]) / 2.0)
  {
    assert |s| == |multiset(s)| == |multiset(sorted)| == |sorted|;
    SortIsUnique(s, sorted);
  }

  /** The positions of a sample at which a value lies between two others. */
  ghost function Between(s: seq<real>, low: real, high: real): set<nat> {
    set i | 0 <= i < |s| && low <= s[i] <= high
  }

  ghost function CountIn(s: seq<real>, low: real, high: real): nat {
    if s == [] then 0
    else CountIn(s[..|s| - 1], low, high) + if low <= s[|s| - 1] <= high then 1 else 0
  }

  lemma {:induction false} CountInCounts(s: seq<real>, low: real, high: real)
    ensures CountIn(s, low, high) == |Between(s, low, high)|
  {
    if s == [] {
    } else {
      var n := |s| - 1;
      CountInCounts(s[..n], low, high);
      var front := Between(s[..n], low, high);
      if low <= s[n] <= high {
        assert Between(s, low, high) == front + {n};
      } else {
        assert Between(s, low, high) == front;
      }
    }
  }

  lemma {:induction false} OneMoreCounted(s: seq<real>, x: real, low: real, high: real)
    ensures CountIn(s + [x], low, high) == CountIn(s, low, high) + if low <= x <= high then 1 else 0
  {
    assert (s + [x])[..|s|] == s;
  }

  lemma {:induction false} InsertCounts(s: seq<real>, x: real, low: real, high: real)
    ensures CountIn(Insert(s, x), low, high) == CountIn(s, low, high) + if low <= x <= high then 1 else 0
  {
    hide CountIn;
    if s == [] || s[|s| - 1] <= x {
      OneMoreCounted(s, x, low, high);
    } else {
      var n := |s| - 1;
      InsertCounts(s[..n], x, low, high);
      OneMoreCounted(s[..n], s[n], low, high);
      OneMoreCounted(Insert(s[..n], x), s[n], low, high);
      assert s == s[..n] + [s[n]];
    }
  }

  lemma {:induction false} SortCounts(s: seq<real>, low: real, high: real)
    ensures CountIn(Sort(s), low, high) == CountIn(s, low, high)
  {
    if s == [] {
    } else {
      SortCounts(s[..|s| - 1], low, high);
      InsertCounts(Sort(s[..|s| - 1]), s[|s| - 1], low, high);
    }
  }

  lemma {:induction false} AllCounted(s: seq<real>, low: real, high: real)
    requires forall i :: 0 <= i < |s| ==> low <= s[i] <= high
    ensures CountIn(s, low, high) == |s|
  {
    if s == [] {
    } else {
      AllCounted(s[..|s| - 1], low, high);
    }
  }

  lemma {:induction false} PartCounted(s: seq<real>, k: nat, low: real, high: real)
    requires k <= |s|
    ensures CountIn(s, low, high) >= CountIn(s[..k], low, high)
    ensures CountIn(s, low, high) >= CountIn(s[k..], low, high)
  {
    if k == |s| {
      assert s[..k] == s && s[k..] == [];
    } else {
      var n := |s| - 1;
      PartCounted(s[..n], k, low, high);
      assert s[..n][..k] == s[..k] && s[k..][..n - k] == s[..n][k..];
    }
  }

  lemma {:induction false} HeadBelow(sorted: seq<real>, k: nat, low: real, m: real)
    requires Sorted(sorted) && 0 < k <= |sorted| && sorted[k - 1] <= m
    requires forall i :: 0 <= i < |sorted| ==> low <= sorted[i]
    ensures CountIn(sorted, low, m) >= k
  {
    hide CountIn;
    var head := sorted[..k];
    forall i | 0 <= i < k
      ensures low <= head[i] <= m
    {
      assert head[i] == sorted[i] <= sorted[k - 1];
    }
    AllCounted(head, low, m);
    PartCounted(sorted, k, low, m);
  }

  lemma {:induction false} TailAbove(sorted: seq<real>, k: nat, m: real, high: real)
    requires Sorted(sorted) && k < |sorted| && m <= sorted[k]
    requires forall i :: 0 <= i < |sorted| ==> sorted[i] <= high
    ensures CountIn(sorted, m, high) >= |sorted| - k
  {
    hide CountIn;
    var tail := sorted[k..];
    forall i | 0 <= i < |tail|
      ensures m <= tail[i] <= high
    {
      assert tail[i] == sorted[k + i] >= sorted[k];
    }
    AllCounted(tail, m, high);
    PartCounted(sorted, k, m, high);
  }

  lemma SortedFacts(s: seq<real>) returns (sorted: seq<real>)
    requires s != []
    ensures sorted == Sort(s) && Sorted(sorted) && |sorted| == |s|
    ensures forall i :: 0 <= i < |s| ==> sorted[i] in s
    ensures Median(s) == Some((sorted[(|s| - 1) / 2] + sorted[|s| / 2]) / 2.0)
  {
    hide Sort, Median;
    sorted := Sort(s);
    SortSorts(s);
    MedianIsTheMiddle(s, sorted);
    forall i | 0 <= i < |s|
      ensures sorted[i] in s
    {
      assert sorted[i] in multiset(sorted);
    }
  }

  /** At least half of a sample lies between any lower bound of it and its median. */
  lemma {:induction false} HalfBelowMedian(s: seq<real>, low: real)
    requires s != [] && forall i :: 0 <= i < |s| ==> low <= s[i]
    ensures Median(s).Some? && 2 * CountIn(s, low, Median(s).value) >= |s|
  {
    hide Sort, Median, CountIn;
    var sorted := SortedFacts(s);
    var m := Median(s).value;
    assert sorted[(|s| - 1) / 2] <= sorted[|s| / 2];
    HeadBelow(sorted, (|s| - 1) / 2 + 1, low, m);
    SortCounts(s, low, m);
  }

  /** And at least half between its median and any upper bound. */
  lemma {:induction false} HalfAboveMedian(s: seq<real>, high: real)
    requires s != [] && forall i :: 0 <= i < |s| ==> s[i] <= high
    ensures Median(s).Some? && 2 * CountIn(s, Median(s).value, high) >= |s|
  {
    hide Sort, Median, CountIn;
    var sorted := SortedFacts(s);
    var m := Median(s).value;
    assert sorted[(|s| - 1) / 2] <= sorted[|s| / 2];
    TailAbove(sorted, |s| / 2, m, high);
    SortCounts(s, m, high);
  }

  lemma {:induction false} DeviationsWithin(s: seq<real>, m: real, d: real)
    ensures CountIn(Deviations(s, m), 0.0, d) == CountIn(s, m - d, m + d)
  {
    if s == [] {
    } else {
      var n := |s| - 1;
      DeviationsWithin(s[..n], m, d);
      assert Deviations(s, m)[..n] == Deviations(s[..n], m);
    }
  }

  /** Positions at which the sample lies at least `d` away from `m`. */
  ghost function Outside(s: seq<real>, m: real, d: real): set<nat> {
    set i | 0 <= i < |s| && (s[i] <= m - d || m + d <= s[i])
  }

  lemma {:induction false} OneMoreOutside(s: seq<real>, x: real, m: real, d: real)
    ensures |Outside(s + [x], m, d)| == |Outside(s, m, d)| + if x <= m - d || m + d <= x then 1 else 0
  {
    var front, all := Outside(s, m, d), Outside(s + [x], m, d);
    if x <= m - d || m + d <= x {
      assert all == front + {|s|};
    } else {
      assert all == front;
    }
  }

  lemma {:induction false} DeviationsOutside(s: seq<real>, m: real, d: real, high: real)
    requires forall i :: 0 <= i < |s| ==> m - high <= s[i] <= m + high
    ensures CountIn(Deviations(s, m), d, high) == |Outside(s, m, d)|
  {
    hide CountIn, Outside;
    if s == [] {
      NothingOutside(m, d, high);
    } else {
      var n := |s| - 1;
      DeviationsOutside(s[..n], m, d, high);
      assert Deviations(s, m) == Deviations(s[..n], m) + [Abs(s[n] - m)];
      assert s == s[..n] + [s[n]];
      OneMoreCounted(Deviations(s[..n], m), Abs(s[n] - m), d, high);
      OneMoreOutside(s[..n], s[n], m, d);
    }
  }

  lemma {:induction false} NothingOutside(m: real, d: real, high: real)
    ensures Outside([], m, d) == {} && CountIn(Deviations([], m), d, high) == 0
  {
  }

  /** A number no element of the sample exceeds. */
  lemma {:induction false} Largest(s: seq<real>) returns (high: real)
    ensures forall i :: 0 <= i < |s| ==> s[i] <= high
  {
    if s == [] {
      high := 0.0;
    } else {
      var n := |s| - 1;
      high := Largest(s[..n]);
      assert forall i :: 0 <= i < n ==> s[..n][i] == s[i];
      high := if s[n] > high then s[n] else high;
    }
  }

  /**
   The median absolute deviation is the distance from the median within which at least half of the
   sample lies, and outside of which at least half of it lies, the border counted both times.
   */
  lemma {:induction false} DeviationCoversHalf(s: seq<real>)
    requires s != []
    ensures Median(s).Some? && MedianAbsoluteDeviation(s).Some?
    ensures
      var m, d := Median(s).value, MedianAbsoluteDeviation(s).value;
      && 2 * |Between(s, m - d, m + d)| >= |s|
      && 2 * |Outside(s, m, d)| >= |s|
  {
    hide Median, Sort, CountIn, Between, Outside;
    var _ := SortedFacts(s);
    var m := Median(s).value;
    var dev := Deviations(s, m);
    var high := Largest(dev);
    HalfBelowMedian(dev, 0.0);
    HalfAboveMedian(dev, high);
    var d := Median(dev).value;
    DeviationsWithin(s, m, d);
    CountInCounts(s, m - d, m + d);
    forall i | 0 <= i < |s|
      ensures m - high <= s[i] <= m + high
    {
      assert dev[i] <= high;
    }
    DeviationsOutside(s, m, d, high);
  }

  /** At least half of the sample is not above the median, and at least half not below it. */
  lemma {:induction false} MedianHalvesTheSample(s: seq<real>, low: real, high: real)
    requires s != [] && forall i :: 0 <= i < |s| ==> low <= s[i] <= high
    ensures Median(s).Some?
    ensures 2 * |Between(s, low, Median(s).value)| >= |s| && 2 * |Between(s, Median(s).value, high)| >= |s|
  {
    HalfBelowMedian(s, low);
    HalfAboveMedian(s, high);
    CountInCounts(s, low, Median(s).value);
    CountInCounts(s, Median(s).value, high);
  }
}
