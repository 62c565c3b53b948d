/**
 The histogram against the log of its observations: how much weight it holds, and what its
 median means.
 */
module HistogramRuns {
  import opened Common
  import opened Stats
  import opened Decay
  import opened Weights
  import opened Histogram

  type Obs = Observation<nat>

  function Run(obs: seq<Obs>, q: real, maxBins: nat): State
    requires maxBins > 0
  {
    if obs == [] then EMPTY else Step(Run(obs[..|obs| - 1], q, maxBins), obs[|obs| - 1], q, maxBins)
  }

  // ------------------------------------------------ weight is conserved

  /** An insertion adds exactly one unit of weight, also when it goes to the collecting bin. */
  lemma {:induction false} InsertedTotal(bins: seq<Entry>, count: nat, maxBins: nat)
    requires maxBins > 0
    ensures Total(Inserted(bins, count, maxBins)) == Total(bins) + 1.0
  {
    var i := Find(bins, count);
    if i.Some? {
      HeavierTotal(bins, i.value);
    } else if |bins| < maxBins {
      assert (bins + [Entry(count, 1.0)])[..|bins|] == bins;
    } else {
      HeavierTotal(bins, Highest(bins));
    }
  }

  /** Below the collecting bin every bin counts its own observations and no others. */
  lemma {:induction false} LowerBinsCountOnlyThemselves(bins: seq<Entry>, count: nat, maxBins: nat, key: nat)
    requires maxBins > 0 && DistinctKeys(bins)
    requires Find(bins, key).Some? && exists i :: 0 <= i < |bins| && bins[i].key > key
    ensures WeightOf(Inserted(bins, count, maxBins), key) == WeightOf(bins, key) + if key == count then 1.0 else 0.0
  {
    var i := Find(bins, count);
    if i.Some? {
      WeightOfHeavier(bins, i.value, key);
    } else if |bins| < maxBins {
      WeightOfAppended(bins, Entry(count, 1.0), key);
    } else {
      WeightOfHeavier(bins, Highest(bins), key);
    }
  }

  // ------------------------------------------------ shape of the bins

  lemma InsertedShape(bins: seq<Entry>, count: nat, maxBins: nat)
    requires maxBins > 0 && DistinctKeys(bins) && Positive(bins) && |bins| <= maxBins
    ensures DistinctKeys(Inserted(bins, count, maxBins)) && Positive(Inserted(bins, count, maxBins))
    ensures |Inserted(bins, count, maxBins)| <= maxBins
  {
  }

  lemma UnprunedShape(bins: seq<Entry>, p: real, count: nat, maxBins: nat)
    requires maxBins > 0 && p > 0.0 && Shaped(bins, maxBins)
    ensures DistinctKeys(Unpruned(bins, p, count, maxBins)) && Positive(Unpruned(bins, p, count, maxBins))
    ensures |Unpruned(bins, p, count, maxBins)| <= maxBins
  {
    FadedPositive(bins, p);
    InsertedShape(Faded(bins, p), count, maxBins);
  }

  lemma StepShape(s: State, o: Obs, q: real, maxBins: nat)
    requires maxBins > 0 && Rate(q) && Shaped(s.bins, maxBins)
    ensures Shaped(Step(s, o, q, maxBins).bins, maxBins)
  {
    var p := Pow(q, SatSub(o.bucket, s.last));
    PowRange(q, SatSub(o.bucket, s.last));
    UnprunedShape(s.bins, p, o.key, maxBins);
    var u := Unpruned(s.bins, p, o.key, maxBins);
    PrunedShape(u);
    forall i | 0 <= i < |Pruned(u)|
      ensures Pruned(u)[i].weight >= NEGLIGIBLE
    {
      assert Pruned(u)[i] in Pruned(u);
    }
  }

  /**
   In every run the counts are pairwise different, within the bound and not negligible; the clock is the
   newest bucket.
   */
  lemma {:induction false} BinsStayShaped(obs: seq<Obs>, q: real, maxBins: nat)
    requires maxBins > 0 && Rate(q)
    ensures Shaped(Run(obs, q, maxBins).bins, maxBins)
    ensures Run(obs, q, maxBins).last == Clock(obs)
  {
    if obs == [] {
    } else {
      var n := |obs| - 1;
      BinsStayShaped(obs[..n], q, maxBins);
      StepShape(Run(obs[..n], q, maxBins), obs[n], q, maxBins);
    }
  }

  /** Dropped weight after one more observation. */
  ghost function LostAfter(lost: real, p: real, u: seq<Entry>): real {
    LostStep(lost, p, Total(u) - Total(Pruned(u)))
  }

  /** Weight dropped as negligible so far, faded to the present like the rest. */
  ghost function Lost(obs: seq<Obs>, q: real, maxBins: nat): real
    requires maxBins > 0
  {
    if obs == [] then 0.0
    else
      var before, o := obs[..|obs| - 1], obs[|obs| - 1];
      var s := Run(before, q, maxBins);
      var p := Pow(q, SatSub(o.bucket, s.last));
      LostAfter(Lost(before, q, maxBins), p, Unpruned(s.bins, p, o.key, maxBins))
  }

  ghost predicate NothingPruned(obs: seq<Obs>, q: real, maxBins: nat)
    requires maxBins > 0
  {
    obs == [] ||
    (var before, o := obs[..|obs| - 1], obs[|obs| - 1];
     var s := Run(before, q, maxBins);
     && NothingPruned(before, q, maxBins)
     && NoneNegligible(Unpruned(s.bins, Pow(q, SatSub(o.bucket, s.last)), o.key, maxBins)))
  }

  ghost function Any(): nat -> bool { _ => true }

  lemma {:induction false} UnprunedTotal(bins: seq<Entry>, p: real, count: nat, maxBins: nat)
    requires maxBins > 0
    ensures Total(Unpruned(bins, p, count, maxBins)) == Total(bins) * p + 1.0
  {
    FadedTotal(bins, p);
    InsertedTotal(Faded(bins, p), count, maxBins);
  }

  /** One observation: nothing but fading, one new unit and the dropped bins changes the account. */
  lemma {:induction false} WeightStep(bins: seq<Entry>, p: real, lost: real, aged: real, count: nat, maxBins: nat)
    requires maxBins > 0 && 0.0 < p && Shaped(bins, maxBins)
    requires Total(bins) + lost == aged && lost >= 0.0
    ensures
      var u := Unpruned(bins, p, count, maxBins);
      && Total(Pruned(u)) + LostAfter(lost, p, u) == Refreshed(aged, p, true)
      && LostAfter(lost, p, u) >= 0.0
      && (LostAfter(lost, p, u) == 0.0 <==> lost == 0.0 && NoneNegligible(u))
  {
    hide Unpruned, Total, Pruned, LostAfter, Refreshed, NoneNegligible;
    var u := Unpruned(bins, p, count, maxBins);
    UnprunedTotal(bins, p, count, maxBins);
    UnprunedShape(bins, p, count, maxBins);
    AccountForPruning(u, Total(bins), p, lost, aged);
  }

  lemma {:induction false} AccountForPruning(u: seq<Entry>, held: real, p: real, lost: real, aged: real)
    requires p > 0.0 && Positive(u) && Total(u) == held * p + 1.0
    requires held + lost == aged && lost >= 0.0
    ensures Total(Pruned(u)) + LostAfter(lost, p, u) == Refreshed(aged, p, true)
    ensures LostAfter(lost, p, u) >= 0.0
    ensures LostAfter(lost, p, u) == 0.0 <==> lost == 0.0 && NoneNegligible(u)
  {
    PrunedTotal(u);
    WeightIsConserved(held, lost, p, aged, Total(u) - Total(Pruned(u)), Total(Pruned(u)), true);
  }

  lemma {:induction false} NothingObserved(q: real)
    ensures Total([]) == 0.0 && Aged<nat>([], Any(), q, Clock<nat>([])) == 0.0
  {
  }

  /** Held plus lost weight is the sum over all observations of the decay since their bucket. */
  lemma {:induction false} WeightHasClosedForm(obs: seq<Obs>, q: real, maxBins: nat)
    requires maxBins > 0 && Rate(q)
    ensures Total(Run(obs, q, maxBins).bins) + Lost(obs, q, maxBins) == Aged(obs, Any(), q, Clock(obs))
    ensures Lost(obs, q, maxBins) >= 0.0
    ensures Lost(obs, q, maxBins) == 0.0 <==> NothingPruned(obs, q, maxBins)
  {
    hide Total, Aged, Pow, LostAfter, Refreshed, NoneNegligible, Pruned, Unpruned;
    if obs == [] {
      NothingObserved(q);
    } else {
      var before, o := obs[..|obs| - 1], obs[|obs| - 1];
      WeightHasClosedForm(before, q, maxBins);
      BinsStayShaped(before, q, maxBins);
      var s := Run(before, q, maxBins);
      PowRange(q, SatSub(o.bucket, s.last));
      WeightStep(s.bins, Pow(q, SatSub(o.bucket, s.last)), Lost(before, q, maxBins),
                 Aged(before, Any(), q, Clock(before)), o.key, maxBins);
      assert obs == before + [o];
      AgedStep(before, o, Any(), q);
    }
  }

  /** Trust at weight `w` cannot be reached with fewer than `w` observations. */
  lemma {:induction false} TrustNeedsObservations(obs: seq<Obs>, q: real, maxBins: nat, w: real)
    requires maxBins > 0 && Rate(q)
    requires IsTrusted(Run(obs, q, maxBins).bins, w)
    ensures |obs| as real >= w
  {
    WeightHasClosedForm(obs, q, maxBins);
    AgedBound(obs, Any(), q, Clock(obs));
  }

  /**
   A histogram is trusted exactly if the aged weight of its observations, less what was pruned, reaches
   the minimum.
   */
  lemma {:induction false} TrustedExactlyWhen(obs: seq<Obs>, q: real, maxBins: nat, w: real)
    requires maxBins > 0 && Rate(q)
    ensures IsTrusted(Run(obs, q, maxBins).bins, w) <==> Aged(obs, Any(), q, Clock(obs)) - Lost(obs, q, maxBins) >= w
  {
    WeightHasClosedForm(obs, q, maxBins);
  }

  /** Pruning drops exactly the bins that weigh less than a thousandth of an observation. */
  lemma {:induction false} OnlyNegligibleIsPruned(bins: seq<Entry>, b: Entry)
    requires DistinctKeys(bins)
    ensures b in Pruned(bins) <==> b in bins && b.weight >= 0.001
  {
    PrunedShape(bins);
  }

  // ------------------------------------------------ the weighted median halves the weight

  ghost function WeightWhere(pairs: seq<Pair>, f: real -> bool): real {
    if pairs == [] then 0.0
    else WeightWhere(pairs[..|pairs| - 1], f) + if f(pairs[|pairs| - 1].value) then pairs[|pairs| - 1].weight else 0.0
  }

  ghost predicate PositivePairs(pairs: seq<Pair>) {
    forall i :: 0 <= i < |pairs| ==> pairs[i].weight > 0.0
  }

  ghost predicate SortedPairs(pairs: seq<Pair>) {
    forall i, j :: 0 <= i < j < |pairs| ==> pairs[i].value <= pairs[j].value
  }

  lemma {:induction false} InsertPairSums(s: seq<Pair>, p: Pair, f: real -> bool)
    ensures Weight(InsertPair(s, p)) == Weight(s) + p.weight
    ensures WeightWhere(InsertPair(s, p), f) == WeightWhere(s, f) + if f(p.value) then p.weight else 0.0
  {
    if s == [] || s[|s| - 1].value <= p.value {
      assert (s + [p])[..|s|] == s;
    } else {
      var n := |s| - 1;
      InsertPairSums(s[..n], p, f);
      var front := InsertPair(s[..n], p);
      assert (front + [s[n]])[..n + 1] == front;
    }
  }

  ghost predicate Bounded(s: seq<Pair>, b: real) {
    forall k :: 0 <= k < |s| ==> s[k].value <= b
  }

  lemma {:induction false} InsertPairBounded(s: seq<Pair>, p: Pair, b: real)
    requires Bounded(s, b) && p.value <= b
    ensures Bounded(InsertPair(s, p), b)
  {
    if s != [] && s[|s| - 1].value > p.value {
      InsertPairBounded(s[..|s| - 1], p, b);
    }
  }

  lemma {:induction false} InsertPairSorts(s: seq<Pair>, p: Pair)
    requires SortedPairs(s) && PositivePairs(s) && p.weight > 0.0
    ensures SortedPairs(InsertPair(s, p)) && PositivePairs(InsertPair(s, p))
  {
    if s != [] && s[|s| - 1].value > p.value {
      var n := |s| - 1;
      InsertPairSorts(s[..n], p);
      var front := InsertPair(s[..n], p);
      assert InsertPair(s, p) == front + [s[n]];
      InsertPairBounded(s[..n], p, s[n].value);
    }
  }

  lemma {:induction false} SortPairsKeeps(pairs: seq<Pair>, f: real -> bool)
    requires PositivePairs(pairs)
    ensures SortedPairs(SortPairs(pairs)) && PositivePairs(SortPairs(pairs))
    ensures Weight(SortPairs(pairs)) == Weight(pairs)
    ensures WeightWhere(SortPairs(pairs), f) == WeightWhere(pairs, f)
  {
    if pairs == [] {
    } else {
      SortPairsKeeps(pairs[..|pairs| - 1], f);
      InsertPairSums(SortPairs(pairs[..|pairs| - 1]), pairs[|pairs| - 1], f);
      InsertPairSorts(SortPairs(pairs[..|pairs| - 1]), pairs[|pairs| - 1]);
    }
  }

  /** Selected weight is bounded by the part of the sequence that can be selected. */
  lemma {:induction false} WeightWhereBounds(s: seq<Pair>, k: nat, f: real -> bool)
    requires PositivePairs(s) && k <= |s|
    ensures (forall j :: k <= j < |s| ==> !f(s[j].value)) ==> WeightWhere(s, f) <= Weight(s[..k])
    ensures (forall j :: 0 <= j < k ==> !f(s[j].value)) ==> WeightWhere(s, f) <= Weight(s) - Weight(s[..k])
  {
    if s == [] {
    } else {
      var n := |s| - 1;
      if k <= n {
        WeightWhereBounds(s[..n], k, f);
        assert s[..n][..k] == s[..k];
        assert forall j :: 0 <= j < n ==> s[..n][j] == s[j];
      } else {
        assert s[..k] == s;
        WeightWhereBounds(s[..n], n, f);
        assert s[..n][..n] == s[..n];
        assert forall j :: 0 <= j < n ==> s[..n][j] == s[j];
      }
    }
  }

  lemma {:induction false} WeightOfPrefix(s: seq<Pair>, i: nat)
    requires i < |s|
    ensures Weight(s[..i + 1]) == Weight(s[..i]) + s[i].weight
  {
    assert s[..i + 1][..i] == s[..i];
  }

  lemma {:induction false} ScanHalves(s: seq<Pair>, i: nat, below: real, half: real)
    requires SortedPairs(s) && PositivePairs(s) && i < |s|
    requires below == Weight(s[..i]) && below < half <= Weight(s)
    ensures ScanFrom(s, i, below, half).Some?
    ensures var m := ScanFrom(s, i, below, half).value;
            && WeightWhere(s, v => v < m) <= half + EPSILON
            && WeightWhere(s, v => v > m) <= Weight(s) - half
    decreases |s| - i
  {
    hide Weight, WeightWhere;
    var c := below + s[i].weight;
    WeightOfPrefix(s, i);
    if i + 1 == |s| {
      assert s[..i + 1] == s;
    }
    if c < half {
      ScanHalves(s, i + 1, c, half);
    } else {
      var m := ScanFrom(s, i, below, half).value;
      if Abs(c - half) < EPSILON && i + 1 < |s| {
        WeightWhereBounds(s, i + 1, v => v < m);
        WeightWhereBounds(s, i + 1, v => v > m);
      } else {
        WeightWhereBounds(s, i, v => v < m);
        WeightWhereBounds(s, i + 1, v => v > m);
      }
    }
  }

  /** At most half of the weight lies above the weighted median, and at most half (up to the tolerance) below it. */
  lemma {:induction false} MedianHalvesTheWeight(pairs: seq<Pair>)
    requires pairs != [] && PositivePairs(pairs)
    ensures WeightedMedian(pairs).Some?
    ensures var m := WeightedMedian(pairs).value;
            && WeightWhere(pairs, v => v < m) <= Weight(pairs) / 2.0 + EPSILON
            && WeightWhere(pairs, v => v > m) <= Weight(pairs) / 2.0
  {
    hide SortPairs, ScanFrom;
    WeightIsPositive(pairs);
    var s := SortPairs(pairs);
    SortPairsKeeps(pairs, _ => true);
    assert s[..0] == [];
    ScanHalves(s, 0, 0.0, Weight(pairs) / 2.0);
    var m := WeightedMedian(pairs).value;
    SortPairsKeeps(pairs, v => v < m);
    SortPairsKeeps(pairs, v => v > m);
  }

  lemma {:induction false} WeightIsPositive(pairs: seq<Pair>)
    requires PositivePairs(pairs)
    ensures Weight(pairs) >= 0.0 && (pairs != [] ==> Weight(pairs) > 0.0)
  {
    if pairs == [] {
    } else {
      WeightIsPositive(pairs[..|pairs| - 1]);
    }
  }

  // ------------------------------------------------ whole weights: the median of the raw sample

  ghost predicate WholePair(p: Pair) {
    p.weight >= 1.0 && p.weight == p.weight.Floor as real
  }

  /** All weights are positive whole numbers. */
  ghost predicate Whole(pairs: seq<Pair>) {
    forall i :: 0 <= i < |pairs| ==> WholePair(pairs[i])
  }

  ghost function Copies(p: Pair): seq<real>
    requires p.weight >= 1.0
  {
    seq(p.weight.Floor, _ => p.value)
  }

  /** The raw sample the pairs stand for. */
  ghost function Expand(pairs: seq<Pair>): seq<real>
    requires Whole(pairs)
  {
    if pairs == [] then [] else Expand(pairs[..|pairs| - 1]) + Copies(pairs[|pairs| - 1])
  }

  lemma {:induction false} ExpandLength(pairs: seq<Pair>)
    requires Whole(pairs)
    ensures |Expand(pairs)| as real == Weight(pairs)
  {
    if pairs == [] {
    } else {
      ExpandLength(pairs[..|pairs| - 1]);
    }
  }

  lemma {:induction false} ExpandPrefix(s: seq<Pair>, k: nat)
    requires Whole(s) && k <= |s|
    ensures |Expand(s[..k])| <= |Expand(s)| && Expand(s)[..|Expand(s[..k])|] == Expand(s[..k])
  {
    if k == |s| {
      assert s[..k] == s;
    } else {
      var n := |s| - 1;
      ExpandPrefix(s[..n], k);
      assert s[..n][..k] == s[..k];
      assert Expand(s) == Expand(s[..n]) + Copies(s[n]);
    }
  }

  /** Positions of the raw sample that belong to pair `i`. */
  lemma ExpandAt(s: seq<Pair>, i: nat, k: nat)
    requires Whole(s) && i < |s| && |Expand(s[..i])| <= k < |Expand(s[..i + 1])|
    ensures k < |Expand(s)| && Expand(s)[k] == s[i].value
  {
    ExpandPrefix(s, i + 1);
    assert s[..i + 1][..i] == s[..i];
    assert Expand(s[..i + 1])[k] == s[i].value;
    assert Expand(s)[k] == Expand(s)[..|Expand(s[..i + 1])|][k];
  }

  lemma {:induction false} ExpandSorted(s: seq<Pair>)
    requires Whole(s) && SortedPairs(s)
    ensures Sorted(Expand(s))
    ensures forall x :: x in Expand(s) ==> s != [] && x <= s[|s| - 1].value
  {
    if s == [] {
    } else {
      var n := |s| - 1;
      ExpandSorted(s[..n]);
      var front := Expand(s[..n]);
      forall i | 0 <= i < |front|
        ensures front[i] <= s[n].value
      {
        assert front[i] in front;
      }
    }
  }

  lemma {:induction false} ExpandInserted(s: seq<Pair>, p: Pair)
    requires Whole(s) && WholePair(p)
    ensures Whole(InsertPair(s, p))
    ensures multiset(Expand(InsertPair(s, p))) == multiset(Expand(s)) + multiset(Copies(p))
  {
    if s == [] || s[|s| - 1].value <= p.value {
      assert (s + [p])[..|s|] == s;
    } else {
      var n := |s| - 1;
      ExpandInserted(s[..n], p);
      var front := InsertPair(s[..n], p);
      assert InsertPair(s, p) == front + [s[n]];
      assert (front + [s[n]])[..n + 1] == front;
    }
  }

  lemma {:induction false} ExpandSortedPairs(pairs: seq<Pair>)
    requires Whole(pairs)
    ensures Whole(SortPairs(pairs))
    ensures multiset(Expand(SortPairs(pairs))) == multiset(Expand(pairs))
  {
    if pairs == [] {
    } else {
      var n := |pairs| - 1;
      ExpandSortedPairs(pairs[..n]);
      ExpandInserted(SortPairs(pairs[..n]), pairs[n]);
    }
  }

  ghost function Middle(sorted: seq<real>): real
    requires sorted != []
  {
    var mid := |sorted| / 2;
    if |sorted| % 2 == 0 then (sorted[mid - 1] + sorted[mid]) / 2.0 else sorted[mid]
  }

  lemma {:induction false} ScanFindsMiddle(s: seq<Pair>, i: nat, below: nat)
    requires Whole(s) && i < |s| && below == |Expand(s[..i])| && 2 * below < |Expand(s)|
    ensures ScanFrom(s, i, below as real, |Expand(s)| as real / 2.0) == Some(Middle(Expand(s)))
    decreases |s| - i
  {
    var e, n := Expand(s), |Expand(s)|;
    assert s[..i + 1][..i] == s[..i];
    var c := |Expand(s[..i + 1])|;
    assert c as real == below as real + s[i].weight;
    ExpandPrefix(s, i + 1);
    if i + 1 == |s| {
      assert s[..i + 1] == s;
    }
    if 2 * c < n {
      ScanFindsMiddle(s, i + 1, c);
    } else if 2 * c == n {
      assert i + 1 < |s|;
      assert s[..i + 2][..i + 1] == s[..i + 1];
      ExpandAt(s, i, c - 1);
      ExpandAt(s, i + 1, c);
      assert n / 2 == c;
    } else {
      assert c as real - n as real / 2.0 >= 0.5;
      ExpandAt(s, i, n / 2);
      if n % 2 == 0 {
        ExpandAt(s, i, n / 2 - 1);
      }
    }
  }

  lemma {:induction false} SortedSample(pairs: seq<Pair>)
    requires pairs != [] && Whole(pairs)
    ensures var s := SortPairs(pairs);
            && Whole(s) && Sort(Expand(pairs)) == Expand(s) && |Expand(s)| as real == Weight(pairs) > 0.0
  {
    var s := SortPairs(pairs);
    assert PositivePairs(pairs);
    SortPairsKeeps(pairs, _ => true);
    ExpandSortedPairs(pairs);
    ExpandSorted(s);
    SortIsUnique(Expand(pairs), Expand(s));
    ExpandLength(s);
    WeightIsPositive(pairs);
  }

  lemma {:induction false} MedianIsMiddle(raw: seq<real>, sorted: seq<real>)
    requires sorted == Sort(raw) && sorted != []
    ensures Median(raw) == Some(Middle(sorted))
  {
  }

  lemma {:induction false} ScanWhole(s: seq<Pair>, half: real)
    requires s != [] && Whole(s) && half == Weight(s) / 2.0
    ensures Expand(s) != [] && ScanFrom(s, 0, 0.0, half) == Some(Middle(Expand(s)))
  {
    ExpandLength(s);
    WeightIsPositive(s);
    assert s[..0] == [];
    ScanFindsMiddle(s, 0, 0);
  }

  lemma {:induction false} WeightedMedianScans(pairs: seq<Pair>, s: seq<Pair>, half: real)
    requires s == SortPairs(pairs) && Weight(s) == Weight(pairs) > 0.0 && half == Weight(s) / 2.0
    ensures WeightedMedian(pairs) == ScanFrom(s, 0, 0.0, half)
  {
    hide ScanFrom, SortPairs, Weight;
  }

  lemma SortedHalf(pairs: seq<Pair>) returns (s: seq<Pair>, half: real)
    requires pairs != [] && Whole(pairs)
    ensures s == SortPairs(pairs) && Weight(s) == Weight(pairs) > 0.0 && half == Weight(s) / 2.0
    ensures s != [] && Whole(s) && Sort(Expand(pairs)) == Expand(s)
  {
    SortedSample(pairs);
    s := SortPairs(pairs);
    ExpandLength(s);
    half := Weight(s) / 2.0;
  }

  /** With whole weights, the weighted median is the median of the raw sample. */
  lemma {:induction false} WeightedMedianIsMedian(pairs: seq<Pair>)
    requires pairs != [] && Whole(pairs)
    ensures WeightedMedian(pairs) == Median(Expand(pairs)) != None
  {
    var s, half := SortedHalf(pairs);
    WeightedMedianScans(pairs, s, half);
    ScanWhole(s, half);
    MedianIsMiddle(Expand(pairs), Expand(s));
  }

  lemma {:induction false} ExpandDeviations(pairs: seq<Pair>, m: real)
    requires Whole(pairs)
    ensures Whole(DeviationPairs(pairs, m))
    ensures Expand(DeviationPairs(pairs, m)) == Deviations(Expand(pairs), m)
  {
    if pairs == [] {
    } else {
      var n := |pairs| - 1;
      ExpandDeviations(pairs[..n], m);
      assert DeviationPairs(pairs, m)[..n] == DeviationPairs(pairs[..n], m);
    }
  }

  // ------------------------------------------------ one bucket: compressed equals plain

  ghost function AsReals(sample: seq<nat>): (r: seq<real>)
    ensures |r| == |sample|
  {
    seq(|sample|, i requires 0 <= i < |sample| => sample[i] as real)
  }

  /** The observations of a sample that all fall into one bucket. */
  ghost function InBucket(sample: seq<nat>, bucket: nat): (obs: seq<Obs>)
    ensures |obs| == |sample|
  {
    seq(|sample|, i requires 0 <= i < |sample| => Observation(sample[i], bucket))
  }

  ghost function Values(sample: seq<nat>): set<nat> {
    set x | x in sample
  }

  ghost function Counts(bins: seq<Entry>): set<nat> {
    set i | 0 <= i < |bins| :: bins[i].key
  }

  ghost predicate WholeBins(bins: seq<Entry>) {
    forall i :: 0 <= i < |bins| ==> bins[i].weight >= 1.0 && bins[i].weight == bins[i].weight.Floor as real
  }

  ghost function Raw(bins: seq<Entry>): multiset<real>
    requires WholeBins(bins)
  {
    multiset(Expand(Pairs(bins)))
  }

  /** The bins hold the sample: each value once, weighted by how often it occurs. */
  ghost predicate Holds(bins: seq<Entry>, sample: seq<nat>) {
    && DistinctKeys(bins) && Counts(bins) == Values(sample) && |bins| == |Values(sample)|
    && WholeBins(bins)
    && Raw(bins) == multiset(AsReals(sample))
  }

  lemma RawUnfold(bins: seq<Entry>)
    requires bins != [] && WholeBins(bins)
    ensures Raw(bins) == Raw(bins[..|bins| - 1]) + multiset(Copies(Pairs(bins)[|bins| - 1]))
  {
    assert Pairs(bins)[..|bins| - 1] == Pairs(bins[..|bins| - 1]);
  }

  lemma OneMoreCopy(b: Entry)
    requires b.weight >= 1.0 && b.weight == b.weight.Floor as real
    ensures WholePair(Pair(b.key as real, b.weight + 1.0))
    ensures Copies(Pair(b.key as real, b.weight + 1.0)) == Copies(Pair(b.key as real, b.weight)) + [b.key as real]
  {
    assert (b.weight + 1.0).Floor == b.weight.Floor + 1;
  }

  lemma {:induction false} HeavierExpands(bins: seq<Entry>, i: nat)
    requires i < |bins| && WholeBins(bins)
    ensures WholeBins(Heavier(bins, i))
    ensures Raw(Heavier(bins, i)) == Raw(bins) + multiset{bins[i].key as real}
  {
    hide Raw;
    var n := |bins| - 1;
    var after := Heavier(bins, i);
    OneMoreCopy(bins[i]);
    RawUnfold(bins);
    RawUnfold(after);
    if i < n {
      HeavierExpands(bins[..n], i);
      assert after[..n] == Heavier(bins[..n], i);
    } else {
      assert after[..n] == bins[..n];
    }
  }

  lemma NewBinExpands(bins: seq<Entry>, count: nat)
    requires WholeBins(bins)
    ensures WholeBins(bins + [Entry(count, 1.0)])
    ensures Raw(bins + [Entry(count, 1.0)]) == Raw(bins) + multiset{count as real}
  {
    var after := bins + [Entry(count, 1.0)];
    assert after[..|bins|] == bins;
    RawUnfold(after);
    assert Copies(Pair(count as real, 1.0)) == [count as real];
  }

  lemma HeavierHolds(bins: seq<Entry>, sample: seq<nat>, count: nat, i: nat)
    requires Holds(bins, sample) && i < |bins| && bins[i].key == count
    ensures Holds(Heavier(bins, i), sample + [count])
  {
    var after := Heavier(bins, i);
    HeavierExpands(bins, i);
    assert AsReals(sample + [count]) == AsReals(sample) + [count as real];
    assert count in Counts(bins);
    assert Values(sample + [count]) == Values(sample) + {count} == Values(sample);
    assert forall k :: 0 <= k < |bins| ==> after[k].key == bins[k].key;
    assert Counts(after) == Counts(bins);
  }

  lemma {:induction false} NewBinHolds(bins: seq<Entry>, sample: seq<nat>, count: nat)
    requires Holds(bins, sample) && Find(bins, count) == None
    ensures Holds(bins + [Entry(count, 1.0)], sample + [count])
    ensures |Values(sample + [count])| == |bins| + 1
  {
    var after := bins + [Entry(count, 1.0)];
    NewBinExpands(bins, count);
    assert AsReals(sample + [count]) == AsReals(sample) + [count as real];
    assert count !in Counts(bins);
    assert Values(sample + [count]) == Values(sample) + {count};
    assert |Values(sample + [count])| == |Values(sample)| + 1;
    assert after[|bins|].key == count;
    assert forall k :: 0 <= k < |bins| ==> after[k] == bins[k];
    assert Counts(after) == Counts(bins) + {count};
  }

  lemma InsertedHolds(bins: seq<Entry>, sample: seq<nat>, count: nat, maxBins: nat)
    requires maxBins > 0 && Holds(bins, sample) && |Values(sample + [count])| <= maxBins
    ensures Holds(Inserted(bins, count, maxBins), sample + [count])
  {
    var i := Find(bins, count);
    if i.Some? {
      HeavierHolds(bins, sample, count, i.value);
    } else {
      NewBinHolds(bins, sample, count);
    }
  }

  lemma {:induction false} PrunedKeepsAll(bins: seq<Entry>)
    requires forall i :: 0 <= i < |bins| ==> bins[i].weight >= NEGLIGIBLE
    ensures Pruned(bins) == bins
  {
    if bins == [] {
    } else {
      PrunedKeepsAll(bins[..|bins| - 1]);
    }
  }

  lemma ObservedHolds(bins: seq<Entry>, sample: seq<nat>, count: nat, maxBins: nat)
    requires maxBins > 0 && Holds(bins, sample) && |Values(sample + [count])| <= maxBins
    ensures Holds(Pruned(Inserted(bins, count, maxBins)), sample + [count])
  {
    InsertedHolds(bins, sample, count, maxBins);
    var u := Inserted(bins, count, maxBins);
    assert forall i :: 0 <= i < |u| ==> u[i].weight == Pairs(u)[i].weight;
    PrunedKeepsAll(u);
  }

  lemma {:induction false} OneBucketHolds(sample: seq<nat>, bucket: nat, q: real, maxBins: nat)
    requires maxBins > 0 && |Values(sample)| <= maxBins
    ensures Holds(Run(InBucket(sample, bucket), q, maxBins).bins, sample)
    ensures Run(InBucket(sample, bucket), q, maxBins).last == if sample == [] then 0 else bucket
  {
    hide Inserted, Pruned;
    if sample == [] {
      assert AsReals([]) == [];
    } else {
      var n := |sample| - 1;
      assert sample == sample[..n] + [sample[n]];
      assert Values(sample) == Values(sample[..n]) + {sample[n]};
      SubsetSize(Values(sample[..n]), Values(sample));
      OneBucketHolds(sample[..n], bucket, q, maxBins);
      assert InBucket(sample, bucket)[..n] == InBucket(sample[..n], bucket);
      var s := Run(InBucket(sample[..n], bucket), q, maxBins);
      var f := Faded(s.bins, Pow(q, SatSub(bucket, s.last)));
      assert f == s.bins;
      ObservedHolds(s.bins, sample[..n], sample[n], maxBins);
    }
  }

  lemma SubsetSize(a: set<nat>, b: set<nat>)
    requires a <= b
    ensures |a| <= |b|
  {
    assert b == a + (b - a);
  }

  /**
   For a sample observed in one bucket with at most `maxBins` different values, median and
   deviation of the histogram are exactly those of the raw sample.
   */
  lemma {:induction false} CompressedEqualsPlain(sample: seq<nat>, bucket: nat, q: real, maxBins: nat)
    requires sample != [] && maxBins > 0 && |Values(sample)| <= maxBins
    ensures
      var raw := AsReals(sample);
      && Median(raw).Some? && MedianAbsoluteDeviation(raw).Some?
      && MedianMadOf(Run(InBucket(sample, bucket), q, maxBins).bins)
           == Some((Median(raw).value, MedianAbsoluteDeviation(raw).value))
  {
    OneBucketHolds(sample, bucket, q, maxBins);
    var bins := Run(InBucket(sample, bucket), q, maxBins).bins;
    var raw, pairs := AsReals(sample), Pairs(bins);
    assert sample[0] in Values(sample);
    assert bins != [];
    WeightedMedianIsMedian(pairs);
    MedianIgnoresOrder(Expand(pairs), raw);
    var m := Median(raw).value;
    ExpandDeviations(pairs, m);
    WeightedMedianIsMedian(DeviationPairs(pairs, m));
  }
}
