/**
 Exponential forgetting, and the plain form it stands for: every observation counts with a
 weight that depends only on how many buckets ago it was made.
 */
module Decay {
  import opened Common

  /** Decay factor over `n` buckets; `q` is the factor of a single bucket. */
  function Pow(q: real, n: nat): real {
    if n == 0 then 1.0 else q * Pow(q, n - 1)
  }

  /** A decay rate of a half life of at least one bucket lies in this range. */
  ghost predicate Rate(q: real) { 0.0 < q <= 1.0 }

  datatype Observation<K> = Observation(key: K, bucket: nat)

  /** The bucket an observation counts for: late ones count for the newest bucket seen. */
  ghost function Clock<K>(obs: seq<Observation<K>>): nat {
    if obs == [] then 0 else Max(Clock(obs[..|obs| - 1]), obs[|obs| - 1].bucket)
  }

  /** Sum of the weights, at time `now`, of the observations selected by `f`. */
  ghost function Aged<K>(obs: seq<Observation<K>>, f: K -> bool, q: real, now: nat): real {
    if obs == [] then 0.0
    else Aged(obs[..|obs| - 1], f, q, now)
         + if f(obs[|obs| - 1].key) then Pow(q, SatSub(now, Clock(obs))) else 0.0
  }

  lemma {:induction false} PowRange(q: real, n: nat)
    requires Rate(q)
    ensures 0.0 < Pow(q, n) <= 1.0
  {
    if n > 0 {
      PowRange(q, n - 1);
      var p := Pow(q, n - 1);
      assert 0.0 < q * p;
      assert q * p <= 1.0 * p;
    }
  }

  lemma {:induction false} PowSum(q: real, a: nat, b: nat)
    ensures Pow(q, a + b) == Pow(q, a) * Pow(q, b)
  {
    if a > 0 {
      PowSum(q, a - 1, b);
      assert Pow(q, a + b) == q * Pow(q, (a - 1) + b);
    }
  }

  /** Letting time pass scales the whole sum by one factor: this is why decay can be applied lazily. */
  lemma {:induction false} AgedLater<K>(obs: seq<Observation<K>>, f: K -> bool, q: real, now: nat, later: nat)
    requires Clock(obs) <= now <= later
    ensures Aged(obs, f, q, later) == Aged(obs, f, q, now) * Pow(q, later - now)
  {
    hide Pow;
    if obs == [] {
    } else {
      var n := |obs| - 1;
      AgedLater(obs[..n], f, q, now, later);
      PowSum(q, now - Clock(obs), later - now);
      assert (now - Clock(obs)) + (later - now) == later - Clock(obs);
      var last := if f(obs[n].key) then Pow(q, now - Clock(obs)) else 0.0;
      SumScales(Aged(obs[..n], f, q, now), last, Pow(q, later - now));
    }
  }

  lemma SumScales(a: real, b: real, p: real)
    ensures (a + b) * p == a * p + b * p
  {
  }

  /** No observation weighs more than one. */
  lemma {:induction false} AgedBound<K>(obs: seq<Observation<K>>, f: K -> bool, q: real, now: nat)
    requires Rate(q)
    ensures 0.0 <= Aged(obs, f, q, now) <= |obs| as real
  {
    if obs == [] {
    } else {
      AgedBound(obs[..|obs| - 1], f, q, now);
      PowRange(q, SatSub(now, Clock(obs)));
    }
  }

  /** A sum of weights after it fades by `p` and one more observation is counted, or not. */
  function Refreshed(aged: real, p: real, counted: bool): real {
    aged * p + if counted then 1.0 else 0.0
  }

  /** Weight given up so far: what was given up before fades like the rest, what goes now is added. */
  ghost function LostStep(lost: real, p: real, gone: real): real {
    lost * p + gone
  }

  /** If held and lost weight make up the sum, they still do after fading, counting and giving up. */
  lemma WeightIsConserved(held: real, lost: real, p: real, aged: real, gone: real, kept: real, counted: bool)
    requires p > 0.0 && lost >= 0.0 && gone >= 0.0 && held + lost == aged
    requires kept + gone == held * p + if counted then 1.0 else 0.0
    ensures kept + LostStep(lost, p, gone) == Refreshed(aged, p, counted)
    ensures LostStep(lost, p, gone) >= 0.0
    ensures LostStep(lost, p, gone) == 0.0 <==> lost == 0.0 && gone == 0.0
  {
    assert aged * p == held * p + lost * p;
    assert lost * p >= 0.0;
  }

  lemma {:induction false} AgedUnfold<K>(obs: seq<Observation<K>>, o: Observation<K>, f: K -> bool, q: real)
    ensures
      var all := obs + [o];
      && Clock(all) == Max(Clock(obs), o.bucket)
      && Aged(all, f, q, Clock(all)) == Aged(obs, f, q, Clock(all)) + if f(o.key) then 1.0 else 0.0
  {
    assert (obs + [o])[..|obs|] == obs;
  }

  /** One further observation: the old sum fades by the elapsed time, the new one counts fully. */
  lemma {:induction false} AgedStep<K>(obs: seq<Observation<K>>, o: Observation<K>, f: K -> bool, q: real)
    ensures
      var all := obs + [o];
      && Clock(all) == Max(Clock(obs), o.bucket)
      && Aged(all, f, q, Clock(all)) ==
           Refreshed(Aged(obs, f, q, Clock(obs)), Pow(q, SatSub(o.bucket, Clock(obs))), f(o.key))
  {
    AgedUnfold(obs, o, f, q);
    AgedLater(obs, f, q, Clock(obs), Clock(obs + [o]));
  }
}
