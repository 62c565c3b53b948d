/**
 Weighted histogram of bucket counts with exponential forgetting.

 A bin holds a count and its accumulated weight. Weights decay with the number of buckets that
 pass; bins that have become negligible are dropped.
 */
module Histogram {
  import opened Common
  import opened Decay
  import opened Weights

  /** A value with its weight, as the median sees it. */
  datatype Pair = Pair(value: real, weight: real)

  /** Tolerance for "exactly half of the weight". */
  const EPSILON: real := 0.000000001

  // ------------------------------------------------ one observation

  /** Last bin among those with the highest count. */
  function Highest(bins: seq<Entry>): (h: nat)
    requires bins != []
    ensures h < |bins| && forall i :: 0 <= i < |bins| ==> bins[i].key <= bins[h].key
  {
    if |bins| == 1 then 0
    else
      var n := |bins| - 1;
      var h := Highest(bins[..n]);
      if bins[n].key >= bins[h].key then n else h
  }

  /** One unit of weight goes to the bin of the count, to a new bin, or to the collecting bin. */
  function Inserted(bins: seq<Entry>, count: nat, maxBins: nat): seq<Entry>
    requires maxBins > 0
  {
    var i := Find(bins, count);
    if i.Some? then Heavier(bins, i.value)
    else if |bins| < maxBins then bins + [Entry(count, 1.0)]
    else Heavier(bins, Highest(bins))
  }

  datatype State = State(bins: seq<Entry>, last: nat)

  const EMPTY: State := State([], 0)

  /** The bins right before negligible ones are dropped, when the old weights fade by `p`. */
  function Unpruned(bins: seq<Entry>, p: real, count: nat, maxBins: nat): seq<Entry>
    requires maxBins > 0
  {
    Inserted(Faded(bins, p), count, maxBins)
  }

  function Step(s: State, o: Observation<nat>, q: real, maxBins: nat): State
    requires maxBins > 0
  {
    State(Pruned(Unpruned(s.bins, Pow(q, SatSub(o.bucket, s.last)), o.key, maxBins)), Max(s.last, o.bucket))
  }

  /** The histogram holds enough weight to be relied on. */
  predicate IsTrusted(bins: seq<Entry>, minWeight: real) {
    Total(bins) >= minWeight
  }

  class CountHistogram {
    var bins: seq<Entry>
    var last: nat

    function View(): State
      reads this
    {
      State(bins, last)
    }

    constructor ()
      ensures View() == EMPTY
    {
      bins, last := [], 0;
    }

    /** Late buckets cause no decay. */
    method ApplyDecay(bucket: nat, q: real)
      modifies `bins
      ensures bins == Faded(old(bins), Pow(q, SatSub(bucket, last)))
    {
      var elapsed := SatSub(bucket, last);
      if elapsed == 0 {
        assert bins == Faded(bins, 1.0);
        return;
      }
      bins := FadeAll(bins, Pow(q, elapsed));
    }

    method InsertCount(count: nat, maxBins: nat)
      requires maxBins > 0
      modifies `bins
      ensures bins == Inserted(old(bins), count, maxBins)
    {
      for i := 0 to |bins|
        invariant bins == old(bins) && Find(bins[..i], count) == None
      {
        assert bins[..i + 1][..i] == bins[..i];
        if bins[i].key == count {
          FindFirst(bins, count, i);
          bins := bins[i := bins[i].(weight := bins[i].weight + 1.0)];
          return;
        }
      }
      assert bins[..|bins|] == bins;
      if |bins| < maxBins {
        bins := bins + [Entry(count, 1.0)];
        return;
      }
      var h := 0;
      for i := 1 to |bins|
        invariant bins == old(bins) && h == Highest(bins[..i])
      {
        assert bins[..i + 1][..i] == bins[..i];
        if bins[i].key >= bins[h].key {
          h := i;
        }
      }
      assert bins[..|bins|] == bins;
      bins := bins[h := bins[h].(weight := bins[h].weight + 1.0)];
    }

    method PruneNegligible()
      modifies `bins
      ensures bins == Pruned(old(bins))
    {
      bins := DropNegligible(bins);
    }

    method Observe(count: nat, bucket: nat, q: real, maxBins: nat)
      modifies this
      ensures View() == Step(old(View()), Observation(count, bucket), q, Max(maxBins, 1))
    {
      ApplyDecay(bucket, q);
      InsertCount(count, Max(maxBins, 1));
      last := Max(last, bucket);
      PruneNegligible();
    }

    method MedianMad() returns (r: Option<(real, real)>)
      ensures r == MedianMadOf(bins)
    {
      if bins == [] {
        return None;
      }
      var pairs := Pairs(bins);
      var median := WeightedMedianOf(pairs);
      if median.None? {
        return None;
      }
      var mad := WeightedMedianOf(DeviationPairs(pairs, median.value));
      if mad.None? {
        return None;
      }
      return Some((median.value, mad.value));
    }
  }

  // ------------------------------------------------ weighted median

  function Weight(pairs: seq<Pair>): real {
    if pairs == [] then 0.0 else Weight(pairs[..|pairs| - 1]) + pairs[|pairs| - 1].weight
  }

  function InsertPair(sorted: seq<Pair>, p: Pair): (s: seq<Pair>)
    ensures |s| == |sorted| + 1
  {
    if sorted == [] || sorted[|sorted| - 1].value <= p.value then sorted + [p]
    else InsertPair(sorted[..|sorted| - 1], p) + [sorted[|sorted| - 1]]
  }

  /** The pairs by ascending value, stably. */
  function SortPairs(pairs: seq<Pair>): (s: seq<Pair>)
    ensures |s| == |pairs|
  {
    if pairs == [] then [] else InsertPair(SortPairs(pairs[..|pairs| - 1]), pairs[|pairs| - 1])
  }

  /** The value at which the running weight, `below` so far, reaches `half`. */
  function ScanFrom(s: seq<Pair>, i: nat, below: real, half: real): Option<real>
    requires i <= |s|
    decreases |s| - i
  {
    if i == |s| then (if s == [] then None else Some(s[|s| - 1].value))
    else
      var c := below + s[i].weight;
      if c < half then ScanFrom(s, i + 1, c, half)
      else if Abs(c - half) < EPSILON && i + 1 < |s| then Some((s[i].value + s[i + 1].value) / 2.0)
      else Some(s[i].value)
  }

  function WeightedMedian(pairs: seq<Pair>): Option<real> {
    var total := Weight(pairs);
    if total <= 0.0 then None else ScanFrom(SortPairs(pairs), 0, 0.0, total / 2.0)
  }

  method WeightedMedianOf(pairs: seq<Pair>) returns (r: Option<real>)
    ensures r == WeightedMedian(pairs)
  {
    var total := Weight(pairs);
    if total <= 0.0 {
      return None;
    }
    var sorted := SortPairs(pairs);
    var half := total / 2.0;
    var cumulative := 0.0;
    for i := 0 to |sorted|
      invariant ScanFrom(sorted, i, cumulative, half) == ScanFrom(sorted, 0, 0.0, half)
    {
      cumulative := cumulative + sorted[i].weight;
      if cumulative >= half {
        if Abs(cumulative - half) < EPSILON && i + 1 < |sorted| {
          return Some((sorted[i].value + sorted[i + 1].value) / 2.0);
        }
        return Some(sorted[i].value);
      }
    }
    return if sorted == [] then None else Some(sorted[|sorted| - 1].value);
  }

  function Pairs(bins: seq<Entry>): (p: seq<Pair>)
    ensures |p| == |bins|
  {
    seq(|bins|, i requires 0 <= i < |bins| => Pair(bins[i].key as real, bins[i].weight))
  }

  function DeviationPairs(pairs: seq<Pair>, center: real): (p: seq<Pair>)
    ensures |p| == |pairs|
  {
    seq(|pairs|, i requires 0 <= i < |pairs| => Pair(Abs(pairs[i].value - center), pairs[i].weight))
  }

  function MedianMadOf(bins: seq<Entry>): Option<(real, real)> {
    if bins == [] then None
    else
      var median := WeightedMedian(Pairs(bins));
      if median.None? then None
      else
        var mad := WeightedMedian(DeviationPairs(Pairs(bins), median.value));
        if mad.None? then None else Some((median.value, mad.value))
  }
}
