/** The deviation of a histogram with arbitrary weights, by the weight near to and far from its median. */
module HistogramSpread {
  import opened Common
  import opened Weights
  import opened Histogram
  import opened HistogramRuns

  /** Weight of the pairs closer to `m` than `d`. */
  ghost function WeightNear(pairs: seq<Pair>, m: real, d: real): real {
    WeightWhere(pairs, v => m - d < v < m + d)
  }

  /** Weight of the pairs further from `m` than `d`. */
  ghost function WeightFar(pairs: seq<Pair>, m: real, d: real): real {
    WeightWhere(pairs, v => v < m - d || m + d < v)
  }

  lemma {:induction false} DeviationWeights(pairs: seq<Pair>, m: real, d: real)
    ensures WeightWhere(DeviationPairs(pairs, m), v => v < d) == WeightNear(pairs, m, d)
    ensures WeightWhere(DeviationPairs(pairs, m), v => v > d) == WeightFar(pairs, m, d)
    ensures Weight(DeviationPairs(pairs, m)) == Weight(pairs)
  {
    if pairs == [] {
    } else {
      var n := |pairs| - 1;
      DeviationWeights(pairs[..n], m, d);
      assert DeviationPairs(pairs, m)[..n] == DeviationPairs(pairs[..n], m);
    }
  }

  lemma {:induction false} PairsWeight(bins: seq<Entry>)
    ensures Weight(Pairs(bins)) == Total(bins)
  {
    if bins == [] {
    } else {
      var n := |bins| - 1;
      PairsWeight(bins[..n]);
      assert Pairs(bins)[..n] == Pairs(bins[..n]);
    }
  }

  /**
   For all weights: at most half of the weight lies above the median of a histogram and at most half
   below it, and at most half lies further from it than the deviation and at most half closer, up to the
   tolerance.
   */
  lemma {:induction false} DeviationHalvesTheWeight(bins: seq<Entry>)
    requires bins != [] && Positive(bins)
    ensures MedianMadOf(bins).Some?
    ensures
      var (m, d) := MedianMadOf(bins).value;
      var pairs, half := Pairs(bins), Total(bins) / 2.0;
      && WeightWhere(pairs, v => v > m) <= half && WeightWhere(pairs, v => v < m) <= half + 0.000000001
      && WeightFar(pairs, m, d) <= half && WeightNear(pairs, m, d) <= half + 0.000000001
  {
    hide WeightedMedian, Weight, WeightWhere, Total;
    var pairs := Pairs(bins);
    PairsWeight(bins);
    MedianHalvesTheWeight(pairs);
    var m := WeightedMedian(pairs).value;
    MedianHalvesTheWeight(DeviationPairs(pairs, m));
    DeviationWeights(pairs, m, WeightedMedian(DeviationPairs(pairs, m)).value);
  }
}
