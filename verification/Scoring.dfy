/** What the combination of signals to one score means. */
module Scoring {
  import opened Common
  import opened Engine
  import Window

  ghost predicate Proper(rs: seq<real>) {
    forall i :: 0 <= i < |rs| ==> 0.0 <= rs[i] <= 1.0
  }

  lemma {:induction false} LeftoverInRange(rs: seq<real>)
    requires Proper(rs)
    ensures 0.0 <= Leftover(rs) <= 1.0
  {
    if rs == [] {
    } else {
      var n := |rs| - 1;
      LeftoverInRange(rs[..n]);
      ProductInRange(Leftover(rs[..n]), 1.0 - rs[n]);
    }
  }

  lemma {:induction false} LeftoverBelowEach(rs: seq<real>, i: nat)
    requires Proper(rs) && i < |rs|
    ensures Leftover(rs) <= 1.0 - rs[i]
  {
    var n := |rs| - 1;
    LeftoverInRange(rs[..n]);
    ProductInRange(Leftover(rs[..n]), 1.0 - rs[n]);
    var left, rest := Leftover(rs[..n]), 1.0 - rs[n];
    assert Leftover(rs) == left * rest;
    if i < n {
      LeftoverBelowEach(rs[..n], i);
      assert left <= 1.0 - rs[i];
    }
  }

  lemma NoFactorIsZero(a: real, b: real)
    ensures a * b == 0.0 <==> a == 0.0 || b == 0.0
  {
  }

  lemma {:induction false} LeftoverVanishes(rs: seq<real>)
    ensures Leftover(rs) == 0.0 <==> 1.0 in rs
  {
    if rs == [] {
    } else {
      var n := |rs| - 1;
      LeftoverVanishes(rs[..n]);
      NoFactorIsZero(Leftover(rs[..n]), 1.0 - rs[n]);
      assert rs == rs[..n] + [rs[n]];
    }
  }

  lemma {:induction false} LeftoverIsWhole(rs: seq<real>)
    requires Proper(rs)
    ensures Leftover(rs) == 1.0 <==> forall i :: 0 <= i < |rs| ==> rs[i] == 0.0
  {
    if rs == [] {
    } else {
      var n := |rs| - 1;
      LeftoverIsWhole(rs[..n]);
      LeftoverInRange(rs[..n]);
      ProductInRange(Leftover(rs[..n]), 1.0 - rs[n]);
      assert forall i :: 0 <= i < n ==> rs[..n][i] == rs[i];
    }
  }

  lemma ProductGrows(a: real, b: real, c: real, d: real)
    requires 0.0 <= a <= b && 0.0 <= c <= d
    ensures a * c <= b * d
  {
    assert a * c <= b * c <= b * d;
  }

  lemma {:induction false} LeftoverShrinks(a: seq<real>, b: seq<real>)
    requires Proper(a) && Proper(b) && |a| == |b| && forall i :: 0 <= i < |a| ==> a[i] <= b[i]
    ensures Leftover(b) <= Leftover(a)
  {
    if a == [] {
    } else {
      var n := |a| - 1;
      LeftoverShrinks(a[..n], b[..n]);
      LeftoverInRange(b[..n]);
      ProductGrows(Leftover(b[..n]), Leftover(a[..n]), 1.0 - b[n], 1.0 - a[n]);
    }
  }

  // ------------------------------------------------ the combined score

  /** The result needs no clamping. */
  lemma {:induction false} NoisyOrIsProbability(signals: seq<Signal>)
    ensures NoisyOr(signals) == 1.0 - Leftover(Strengths(signals))
    ensures 0.0 <= NoisyOr(signals) <= 1.0
  {
    LeftoverInRange(Strengths(signals));
  }

  /** No signal is diluted by the others. */
  lemma NoSignalIsDiluted(signals: seq<Signal>, i: nat)
    requires i < |signals|
    ensures NoisyOr(signals) >= Strength(signals[i])
  {
    LeftoverBelowEach(Strengths(signals), i);
    NoisyOrIsProbability(signals);
  }

  lemma FullStrength(s: Signal)
    ensures Strength(s) == 1.0 <==> s.weight >= 1.0 && s.component >= 1.0
    ensures Strength(s) == 0.0 <==> s.weight <= 0.0 || s.component <= 0.0
  {
    ProductInRange(Clamp01(s.weight), Clamp01(s.component));
    NoFactorIsZero(Clamp01(s.weight), Clamp01(s.component));
  }

  /** The score is full exactly when a single signal of full weight is. */
  lemma FullScoreExactlyWhen(signals: seq<Signal>)
    ensures NoisyOr(signals) == 1.0 <==>
            exists i :: 0 <= i < |signals| && signals[i].weight >= 1.0 && signals[i].component >= 1.0
  {
    var rs := Strengths(signals);
    NoisyOrIsProbability(signals);
    LeftoverVanishes(rs);
    forall i | 0 <= i < |signals|
      ensures rs[i] == 1.0 <==> signals[i].weight >= 1.0 && signals[i].component >= 1.0
    {
      FullStrength(signals[i]);
    }
  }

  /** The score is zero exactly when every signal is. */
  lemma ZeroScoreExactlyWhen(signals: seq<Signal>)
    ensures NoisyOr(signals) == 0.0 <==>
            forall i :: 0 <= i < |signals| ==> signals[i].weight <= 0.0 || signals[i].component <= 0.0
  {
    var rs := Strengths(signals);
    NoisyOrIsProbability(signals);
    LeftoverIsWhole(rs);
    forall i | 0 <= i < |signals|
      ensures rs[i] == 0.0 <==> signals[i].weight <= 0.0 || signals[i].component <= 0.0
    {
      FullStrength(signals[i]);
    }
  }

  lemma StrengthGrows(a: Signal, b: Signal)
    requires a.weight == b.weight && a.component <= b.component
    ensures Strength(a) <= Strength(b)
  {
    var w, x, y := Clamp01(a.weight), Clamp01(a.component), Clamp01(b.component);
    ClampGrows(a.component, b.component);
    ClampGrows(0.0, a.weight);
    ProductGrows(w, w, x, y);
    hide Clamp01;
    assert Strength(a) == w * x && Strength(b) == w * y;
  }

  lemma ClampGrows(x: real, y: real)
    ensures 0.0 <= Clamp01(x) <= 1.0 && 0.0 <= Clamp01(y) <= 1.0
    ensures x <= y ==> Clamp01(x) <= Clamp01(y)
  {
  }

  /** The score grows with every signal. */
  lemma NoisyOrIsMonotone(a: seq<Signal>, b: seq<Signal>)
    requires |a| == |b|
    requires forall i :: 0 <= i < |a| ==> a[i].weight == b[i].weight && a[i].component <= b[i].component
    ensures NoisyOr(a) <= NoisyOr(b)
  {
    forall i | 0 <= i < |a|
      ensures Strengths(a)[i] <= Strengths(b)[i]
    {
      StrengthGrows(a[i], b[i]);
    }
    LeftoverShrinks(Strengths(a), Strengths(b));
    NoisyOrIsProbability(a);
    NoisyOrIsProbability(b);
  }

  // ------------------------------------------------ the score of an event

  /** One signal alone drives the score to the full: its weight is full and its raw value reaches its reference. */
  predicate Drives(weight: real, value: real, reference: real) {
    weight >= 1.0 && reference > 0.0 && value >= reference
  }

  lemma ComponentIsFull(value: real, reference: real)
    ensures Normalize(value, reference) >= 1.0 <==> reference > 0.0 && value >= reference
    ensures Normalize(value, reference) <= 0.0 <==> reference <= 0.0 || value <= 0.0
  {
  }

  lemma ProductIsFull(a: real, b: real)
    requires 0.0 <= a <= 1.0 && 0.0 <= b <= 1.0
    ensures a * b >= 1.0 <==> a == 1.0 && b == 1.0
  {
    ProductInRange(a, b);
  }

  /** The three signals in the order they are combined. */
  function SignalsOf(cfg: Config, rateZ: real, surprisal: real, entropyZ: real, share: real): seq<Signal> {
    [Signal(cfg.weightRate, Normalize(if rateZ < 0.0 then 0.0 else rateZ, cfg.rateReference)),
     Signal(cfg.weightSurprisal, Normalize(surprisal, cfg.surprisalReference)),
     Signal(cfg.weightEntropy, Normalize(Abs(entropyZ), cfg.entropyReference) * share)]
  }

  lemma CombinedIsNoisyOr(cfg: Config, rateZ: real, surprisal: real, entropyZ: real, share: real)
    ensures Combine(cfg, rateZ, surprisal, entropyZ, share).combined
            == NoisyOr(SignalsOf(cfg, rateZ, surprisal, entropyZ, share))
  {
    NoisyOrIsProbability(SignalsOf(cfg, rateZ, surprisal, entropyZ, share));
  }

  /**
   An event gets the full score exactly when one signal alone drives it there; the entropy can only
   do so for a template that fills the window.
   */
  lemma FullScoreOfAnEvent(cfg: Config, rateZ: real, surprisal: real, entropyZ: real, share: real)
    requires 0.0 <= share <= 1.0
    ensures Combine(cfg, rateZ, surprisal, entropyZ, share).combined == 1.0 <==>
              || Drives(cfg.weightRate, rateZ, cfg.rateReference)
              || Drives(cfg.weightSurprisal, surprisal, cfg.surprisalReference)
              || (Drives(cfg.weightEntropy, Abs(entropyZ), cfg.entropyReference) && share == 1.0)
  {
    hide NoisyOr, Combine;
    var signals := SignalsOf(cfg, rateZ, surprisal, entropyZ, share);
    CombinedIsNoisyOr(cfg, rateZ, surprisal, entropyZ, share);
    FullScoreExactlyWhen(signals);
    ComponentIsFull(if rateZ < 0.0 then 0.0 else rateZ, cfg.rateReference);
    ComponentIsFull(surprisal, cfg.surprisalReference);
    ComponentIsFull(Abs(entropyZ), cfg.entropyReference);
    ProductIsFull(Normalize(Abs(entropyZ), cfg.entropyReference), share);
    FirstSecondOrThird(signals);
    assert signals[0].component >= 1.0 <==> cfg.rateReference > 0.0 && rateZ >= cfg.rateReference;
    assert signals[1].component >= 1.0 <==> cfg.surprisalReference > 0.0 && surprisal >= cfg.surprisalReference;
    assert signals[2].component >= 1.0 <==>
             cfg.entropyReference > 0.0 && Abs(entropyZ) >= cfg.entropyReference && share == 1.0;
  }

  lemma FirstSecondOrThird(signals: seq<Signal>)
    requires |signals| == 3
    ensures (exists i :: 0 <= i < |signals| && signals[i].weight >= 1.0 && signals[i].component >= 1.0) <==>
              || (signals[0].weight >= 1.0 && signals[0].component >= 1.0)
              || (signals[1].weight >= 1.0 && signals[1].component >= 1.0)
              || (signals[2].weight >= 1.0 && signals[2].component >= 1.0)
  {
  }

  /** A template that becomes rarer, and the direction in which the entropy moves, make no difference. */
  lemma OnlyRisesCount(cfg: Config, rateZ: real, surprisal: real, entropyZ: real, share: real)
    ensures rateZ <= 0.0 ==>
              Combine(cfg, rateZ, surprisal, entropyZ, share).combined
                  == Combine(cfg, 0.0, surprisal, entropyZ, share).combined
    ensures Combine(cfg, rateZ, surprisal, -entropyZ, share).combined
            == Combine(cfg, rateZ, surprisal, entropyZ, share).combined
  {
    hide Combine, NoisyOr, Normalize;
    CombinedIsNoisyOr(cfg, rateZ, surprisal, entropyZ, share);
    CombinedIsNoisyOr(cfg, rateZ, surprisal, -entropyZ, share);
    CombinedIsNoisyOr(cfg, 0.0, surprisal, entropyZ, share);
    var up, down := Normalize(Abs(entropyZ), cfg.entropyReference), Normalize(Abs(-entropyZ), cfg.entropyReference);
    assert Abs(-entropyZ) == Abs(entropyZ);
    assert up == down;
    var s, t := SignalsOf(cfg, rateZ, surprisal, entropyZ, share), SignalsOf(cfg, rateZ, surprisal, -entropyZ, share);
    assert s[2] == Signal(cfg.weightEntropy, up * share) && t[2] == Signal(cfg.weightEntropy, down * share);
    assert s[0] == t[0] && s[1] == t[1] && s[2] == t[2];
    assert s == t;
  }

  /** A template without entries in the window is not blamed for an entropy alarm. */
  lemma BystandersAreNotBlamed(cfg: Config, rateZ: real, surprisal: real, entropyZ: real)
    ensures Combine(cfg, rateZ, surprisal, entropyZ, 0.0).combined == Combine(cfg, rateZ, surprisal, 0.0, 0.0).combined
  {
    hide Combine, NoisyOr, Normalize;
    CombinedIsNoisyOr(cfg, rateZ, surprisal, entropyZ, 0.0);
    CombinedIsNoisyOr(cfg, rateZ, surprisal, 0.0, 0.0);
    assert SignalsOf(cfg, rateZ, surprisal, entropyZ, 0.0) == SignalsOf(cfg, rateZ, surprisal, 0.0, 0.0);
  }

  // ------------------------------------------------ the share of a template in the window

  /** Sum over the listed templates of their number of entries in the window. */
  function Held(entries: seq<Window.Entry>, ids: seq<nat>): nat {
    if ids == [] then 0 else Held(entries, ids[..|ids| - 1]) + Window.Occurrences(entries, ids[|ids| - 1])
  }

  lemma {:induction false} HeldGrows(entries: seq<Window.Entry>, ids: seq<nat>)
    requires entries != [] && Distinct(ids)
    ensures var n := |entries| - 1;
            Held(entries, ids) == Held(entries[..n], ids) + if entries[n].id in ids then 1 else 0
  {
    if ids == [] {
    } else {
      var k := |ids| - 1;
      HeldGrows(entries, ids[..k]);
      assert ids == ids[..k] + [ids[k]];
    }
  }

  /** An entropy alarm is shared out completely: the entries of all templates together are the window. */
  lemma {:induction false} SharesAddUp(entries: seq<Window.Entry>, ids: seq<nat>)
    requires Distinct(ids) && forall i :: 0 <= i < |entries| ==> entries[i].id in ids
    ensures Held(entries, ids) == |entries|
  {
    if entries != [] {
      SharesAddUp(entries[..|entries| - 1], ids);
      HeldGrows(entries, ids);
    } else {
      NothingHeld(ids);
    }
  }

  lemma {:induction false} NothingHeld(ids: seq<nat>)
    ensures Held([], ids) == 0
  {
    if ids == [] {
    } else {
      NothingHeld(ids[..|ids| - 1]);
    }
  }

  lemma {:induction false} OccursAtMostOften(entries: seq<Window.Entry>, id: nat)
    ensures Window.Occurrences(entries, id) <= |entries|
  {
    if entries == [] {
    } else {
      OccursAtMostOften(entries[..|entries| - 1], id);
    }
  }

  lemma ShareInRange(count: nat, total: nat)
    requires count <= total
    ensures 0.0 <= ShareOf(count, total) <= 1.0
  {
  }

  /** Every component of a score and the score itself lie between zero and one. */
  lemma ScoreInRange(l: Learned, cfg: Config, m: Measures, e: Input)
    ensures var b := Assessed(l, cfg, m, e);
            && 0.0 <= b.rateComponent <= 1.0 && 0.0 <= b.surprisalComponent <= 1.0
            && 0.0 <= b.entropyComponent <= 1.0 && 0.0 <= b.combined <= 1.0
  {
    OccursAtMostOften(l.window.entries, e.id);
    var share := ShareOf(Count(l, e.id), |l.window.entries|);
    ShareInRange(Count(l, e.id), |l.window.entries|);
    ProductInRange(Normalize(Abs(EntropyScore(l, m)), cfg.entropyReference), share);
  }
}
