/**
 Lists of weighted entries, the common ground of the count histogram and the unit profile:
 weights fade with time, and entries that have become negligible are dropped.
 */
module Weights {
  import opened Common

  /** A count or a template id, with its accumulated weight. */
  datatype Entry = Entry(key: nat, weight: real)

  const NEGLIGIBLE: real := 0.001

  function Total(bins: seq<Entry>): real {
    if bins == [] then 0.0 else Total(bins[..|bins| - 1]) + bins[|bins| - 1].weight
  }

  function Fade(b: Entry, factor: real): Entry {
    b.(weight := b.weight * factor)
  }

  function Faded(bins: seq<Entry>, factor: real): (f: seq<Entry>)
    ensures |f| == |bins|
    ensures forall i :: 0 <= i < |bins| ==> f[i] == Fade(bins[i], factor)
  {
    seq(|bins|, i requires 0 <= i < |bins| => Fade(bins[i], factor))
  }

  /** First bin with this count. */
  function Find(bins: seq<Entry>, count: nat): (r: Option<nat>)
    ensures r.None? ==> forall i :: 0 <= i < |bins| ==> bins[i].key != count
    ensures r.Some? ==> r.value < |bins| && bins[r.value].key == count
  {
    if bins == [] then None
    else
      var n := |bins| - 1;
      var r := Find(bins[..n], count);
      if r.Some? then r else if bins[n].key == count then Some(n) else None
  }

  function Heavier(bins: seq<Entry>, i: nat): seq<Entry>
    requires i < |bins|
  {
    bins[i := bins[i].(weight := bins[i].weight + 1.0)]
  }

  function Pruned(bins: seq<Entry>): seq<Entry> {
    if bins == [] then []
    else Pruned(bins[..|bins| - 1]) + if bins[|bins| - 1].weight >= NEGLIGIBLE then [bins[|bins| - 1]] else []
  }

  method FadeAll(bins: seq<Entry>, factor: real) returns (faded: seq<Entry>)
    ensures faded == Faded(bins, factor)
  {
    faded := bins;
    for i := 0 to |bins|
      invariant |faded| == |bins|
      invariant forall k :: 0 <= k < i ==> faded[k] == Fade(bins[k], factor)
      invariant forall k :: i <= k < |bins| ==> faded[k] == bins[k]
    {
      faded := faded[i := Fade(faded[i], factor)];
    }
  }

  method DropNegligible(bins: seq<Entry>) returns (kept: seq<Entry>)
    ensures kept == Pruned(bins)
  {
    kept := [];
    for i := 0 to |bins|
      invariant kept == Pruned(bins[..i])
    {
      assert bins[..i + 1][..i] == bins[..i];
      if bins[i].weight >= NEGLIGIBLE {
        kept := kept + [bins[i]];
      }
    }
    assert bins[..|bins|] == bins;
  }

  // ------------------------------------------------ facts

  lemma {:induction false} FindFirst(bins: seq<Entry>, count: nat, i: nat)
    requires i < |bins| && Find(bins[..i], count) == None && bins[i].key == count
    ensures Find(bins, count) == Some(i)
  {
    var n := |bins| - 1;
    if i < n {
      assert bins[..n][..i] == bins[..i];
      FindFirst(bins[..n], count, i);
    }
  }

  lemma {:induction false} FadedTotal(bins: seq<Entry>, f: real)
    ensures Total(Faded(bins, f)) == Total(bins) * f
  {
    if bins == [] {
    } else {
      var n := |bins| - 1;
      FadedTotal(bins[..n], f);
      assert Faded(bins, f)[..n] == Faded(bins[..n], f);
    }
  }

  lemma {:induction false} HeavierTotal(bins: seq<Entry>, i: nat)
    requires i < |bins|
    ensures Total(Heavier(bins, i)) == Total(bins) + 1.0
  {
    var n := |bins| - 1;
    if i < n {
      HeavierTotal(bins[..n], i);
      assert Heavier(bins, i)[..n] == Heavier(bins[..n], i);
    } else {
      assert Heavier(bins, i)[..n] == bins[..n];
    }
  }

  ghost predicate Positive(bins: seq<Entry>) {
    forall i :: 0 <= i < |bins| ==> bins[i].weight > 0.0
  }

  /** Dropping bins never adds weight; it drops none exactly when no bin is negligible. */
  lemma {:induction false} PrunedTotal(bins: seq<Entry>)
    requires Positive(bins)
    ensures Total(Pruned(bins)) <= Total(bins)
    ensures Total(Pruned(bins)) == Total(bins) <==> forall i :: 0 <= i < |bins| ==> bins[i].weight >= NEGLIGIBLE
  {
    if bins == [] {
    } else {
      var n := |bins| - 1;
      PrunedTotal(bins[..n]);
      if bins[n].weight >= NEGLIGIBLE {
        var kept := Pruned(bins[..n]);
        assert (kept + [bins[n]])[..|kept|] == kept;
      } else {
        assert Pruned(bins[..n]) + [] == Pruned(bins[..n]);
      }
      assert forall i :: 0 <= i < n ==> bins[..n][i] == bins[i];
    }
  }

  lemma FadedPositive(bins: seq<Entry>, p: real)
    requires p > 0.0 && Positive(bins)
    ensures Positive(Faded(bins, p))
  {
    forall i | 0 <= i < |bins|
      ensures Fade(bins[i], p).weight > 0.0
    {
      var w := bins[i].weight;
      assert w * p > 0.0;
    }
  }

  ghost predicate NoneNegligible(bins: seq<Entry>) {
    forall i :: 0 <= i < |bins| ==> bins[i].weight >= NEGLIGIBLE
  }

  ghost predicate DistinctKeys(bins: seq<Entry>) {
    forall i, j :: 0 <= i < j < |bins| ==> bins[i].key != bins[j].key
  }

  ghost predicate Shaped(bins: seq<Entry>, maxBins: nat) {
    && DistinctKeys(bins) && |bins| <= maxBins
    && forall i :: 0 <= i < |bins| ==> bins[i].weight >= NEGLIGIBLE
  }

  lemma {:induction false} PrunedShape(bins: seq<Entry>)
    requires DistinctKeys(bins)
    ensures DistinctKeys(Pruned(bins)) && |Pruned(bins)| <= |bins|
    ensures forall b :: b in Pruned(bins) <==> b in bins && b.weight >= NEGLIGIBLE
  {
    if bins == [] {
    } else {
      var n := |bins| - 1;
      PrunedShape(bins[..n]);
      assert bins == bins[..n] + [bins[n]];
      var kept := Pruned(bins[..n]);
      forall i | 0 <= i < |kept|
        ensures kept[i].key != bins[n].key
      {
        assert kept[i] in kept;
        assert kept[i] in bins[..n];
      }
    }
  }

  // ------------------------------------------------ the weight of one key

  /** Weight of the entry for `key`, zero if there is none. */
  function WeightOf(bins: seq<Entry>, key: nat): real {
    var i := Find(bins, key);
    if i.Some? then bins[i.value].weight else 0.0
  }

  lemma {:induction false} WeightOfAt(bins: seq<Entry>, i: nat)
    requires DistinctKeys(bins) && i < |bins|
    ensures Find(bins, bins[i].key) == Some(i) && WeightOf(bins, bins[i].key) == bins[i].weight
  {
  }

  lemma WeightOfFaded(bins: seq<Entry>, p: real, key: nat)
    requires DistinctKeys(bins)
    ensures WeightOf(Faded(bins, p), key) == WeightOf(bins, key) * p
    ensures DistinctKeys(Faded(bins, p))
  {
    var f := Faded(bins, p);
    assert DistinctKeys(f);
    var i := Find(bins, key);
    if i.Some? {
      WeightOfAt(f, i.value);
    } else {
      assert Find(f, key) == None;
    }
  }

  lemma WeightOfHeavier(bins: seq<Entry>, i: nat, key: nat)
    requires DistinctKeys(bins) && i < |bins|
    ensures DistinctKeys(Heavier(bins, i))
    ensures WeightOf(Heavier(bins, i), key) == WeightOf(bins, key) + if key == bins[i].key then 1.0 else 0.0
  {
    var h := Heavier(bins, i);
    assert forall k :: 0 <= k < |bins| ==> h[k].key == bins[k].key;
    var k := Find(bins, key);
    if k.Some? {
      WeightOfAt(h, k.value);
      if key == bins[i].key {
        assert k.value == i;
      }
    } else {
      assert Find(h, key) == None;
    }
  }

  lemma {:induction false} WeightOfAppended(bins: seq<Entry>, e: Entry, key: nat)
    requires DistinctKeys(bins) && Find(bins, e.key) == None
    ensures DistinctKeys(bins + [e])
    ensures WeightOf(bins + [e], key) == if key == e.key then e.weight else WeightOf(bins, key)
  {
    var a := bins + [e];
    assert DistinctKeys(a);
    if key == e.key {
      WeightOfAt(a, |bins|);
    } else {
      var k := Find(bins, key);
      if k.Some? {
        WeightOfAt(a, k.value);
      }
    }
  }

  lemma WeightOfRemoved(bins: seq<Entry>, i: nat, key: nat)
    requires DistinctKeys(bins) && i < |bins|
    ensures DistinctKeys(RemoveAt(bins, i))
    ensures WeightOf(RemoveAt(bins, i), key) == if key == bins[i].key then 0.0 else WeightOf(bins, key)
  {
    var r := RemoveAt(bins, i);
    assert DistinctKeys(r);
    var k := Find(bins, key);
    if key == bins[i].key {
      assert Find(r, key) == None;
    } else if k.Some? {
      WeightOfAt(r, if k.value < i then k.value else k.value - 1);
    } else {
      assert Find(r, key) == None;
    }
  }

  lemma {:induction false} WeightOfPruned(bins: seq<Entry>, key: nat)
    requires DistinctKeys(bins)
    ensures WeightOf(Pruned(bins), key) == if WeightOf(bins, key) >= NEGLIGIBLE then WeightOf(bins, key) else 0.0
  {
    PrunedShape(bins);
    var r := Pruned(bins);
    var k := Find(bins, key);
    if k.Some? && bins[k.value].weight >= NEGLIGIBLE {
      assert bins[k.value] in r;
      var i :| 0 <= i < |r| && r[i] == bins[k.value];
      WeightOfAt(r, i);
    } else {
      forall i | 0 <= i < |r|
        ensures r[i].key != key
      {
        assert r[i] in r;
      }
    }
  }
}
