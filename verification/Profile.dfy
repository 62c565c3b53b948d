/**
 Long-term template frequencies of one unit: fading weights per template, bounded by giving up
 the lightest template for a new one.
 */
module Profile {
  import opened Common
  import opened Decay
  import opened Weights

  datatype State = State(counts: seq<Entry>, last: nat)

  const EMPTY: State := State([], 0)

  /** First entry among those with the smallest weight. */
  function Lightest(counts: seq<Entry>): (l: nat)
    requires counts != []
    ensures l < |counts|
    ensures forall i :: 0 <= i < |counts| ==> counts[l].weight <= counts[i].weight
    ensures forall i :: 0 <= i < l ==> counts[l].weight < counts[i].weight
  {
    if |counts| == 1 then 0
    else
      var n := |counts| - 1;
      var l := Lightest(counts[..n]);
      if counts[n].weight < counts[l].weight then n else l
  }

  function MakeRoom(counts: seq<Entry>, maxTemplates: nat): seq<Entry> {
    if |counts| < maxTemplates || counts == [] then counts else RemoveAt(counts, Lightest(counts))
  }

  /** One unit of weight for the template; a new template may displace the lightest one. */
  function Inserted(counts: seq<Entry>, template: nat, maxTemplates: nat): seq<Entry> {
    var i := Find(counts, template);
    if i.Some? then Heavier(counts, i.value)
    else MakeRoom(counts, maxTemplates) + [Entry(template, 1.0)]
  }

  /** The entries after an observation, when the old weights fade by `p`. */
  function Observed(counts: seq<Entry>, p: real, template: nat, maxTemplates: nat): seq<Entry> {
    Pruned(Inserted(Faded(counts, p), template, maxTemplates))
  }

  function Step(s: State, o: Observation<nat>, q: real, maxTemplates: nat): State {
    State(Observed(s.counts, Pow(q, SatSub(o.bucket, s.last)), o.key, maxTemplates), Max(s.last, o.bucket))
  }

  class UnitProfile {
    var counts: seq<Entry>
    var last: nat

    function View(): State
      reads this
    {
      State(counts, last)
    }

    constructor ()
      ensures View() == EMPTY
    {
      counts, last := [], 0;
    }

    method ApplyDecay(bucket: nat, q: real)
      modifies `counts
      ensures counts == Faded(old(counts), Pow(q, SatSub(bucket, last)))
    {
      var elapsed := SatSub(bucket, last);
      if elapsed == 0 {
        assert counts == Faded(counts, 1.0);
        return;
      }
      counts := FadeAll(counts, Pow(q, elapsed));
    }

    method EvictLightestIfNeeded(maxTemplates: nat)
      modifies `counts
      ensures counts == MakeRoom(old(counts), maxTemplates)
    {
      if |counts| < maxTemplates || counts == [] {
        return;
      }
      var l := 0;
      for i := 1 to |counts|
        invariant counts == old(counts) && l == Lightest(counts[..i])
      {
        assert counts[..i + 1][..i] == counts[..i];
        if counts[i].weight < counts[l].weight {
          l := i;
        }
      }
      assert counts[..|counts|] == counts;
      counts := RemoveAt(counts, l);
    }

    method InsertTemplate(template: nat, maxTemplates: nat)
      modifies `counts
      ensures counts == Inserted(old(counts), template, maxTemplates)
    {
      for i := 0 to |counts|
        invariant counts == old(counts) && Find(counts[..i], template) == None
      {
        assert counts[..i + 1][..i] == counts[..i];
        if counts[i].key == template {
          FindFirst(counts, template, i);
          counts := counts[i := counts[i].(weight := counts[i].weight + 1.0)];
          return;
        }
      }
      assert counts[..|counts|] == counts;
      EvictLightestIfNeeded(maxTemplates);
      counts := counts + [Entry(template, 1.0)];
    }

    method Observe(template: nat, bucket: nat, q: real, maxTemplates: nat)
      modifies this
      ensures View() == Step(old(View()), Observation(template, bucket), q, Max(maxTemplates, 1))
    {
      ApplyDecay(bucket, q);
      InsertTemplate(template, Max(maxTemplates, 1));
      last := Max(last, bucket);
      counts := DropNegligible(counts);
    }
  }

  // ------------------------------------------------ runs

  type Obs = Observation<nat>

  function Run(obs: seq<Obs>, q: real, maxTemplates: nat): State {
    if obs == [] then EMPTY
    else Step(Run(obs[..|obs| - 1], q, maxTemplates), obs[|obs| - 1], q, maxTemplates)
  }

  /** The template an insertion gives up: the lightest of a full profile that does not know the new one. */
  function Displaced(counts: seq<Entry>, template: nat, maxTemplates: nat): Option<nat> {
    if Find(counts, template).Some? || |counts| < maxTemplates || counts == [] then None
    else Some(counts[Lightest(counts)].key)
  }

  lemma InsertedWeight(counts: seq<Entry>, template: nat, maxTemplates: nat, key: nat)
    requires DistinctKeys(counts)
    ensures DistinctKeys(Inserted(counts, template, maxTemplates))
    ensures WeightOf(Inserted(counts, template, maxTemplates), key) ==
              (if Displaced(counts, template, maxTemplates) == Some(key) then 0.0 else WeightOf(counts, key))
              + if key == template then 1.0 else 0.0
  {
    var i := Find(counts, template);
    if i.Some? {
      WeightOfHeavier(counts, i.value, key);
    } else {
      var room := MakeRoom(counts, maxTemplates);
      if room != counts {
        var l := Lightest(counts);
        WeightOfRemoved(counts, l, key);
        WeightOfRemoved(counts, l, template);
        assert Find(room, template) == None;
      }
      WeightOfAppended(room, Entry(template, 1.0), key);
    }
  }

  lemma InsertedSize(counts: seq<Entry>, template: nat, maxTemplates: nat)
    requires maxTemplates > 0 && |counts| <= maxTemplates
    ensures |Inserted(counts, template, maxTemplates)| <= maxTemplates
  {
  }

  lemma StepShape(s: State, o: Obs, q: real, maxTemplates: nat)
    requires maxTemplates > 0 && Shaped(s.counts, maxTemplates)
    ensures Shaped(Step(s, o, q, maxTemplates).counts, maxTemplates)
  {
    var p := Pow(q, SatSub(o.bucket, s.last));
    var f := Faded(s.counts, p);
    WeightOfFaded(s.counts, p, o.key);
    InsertedWeight(f, o.key, maxTemplates, o.key);
    InsertedSize(f, o.key, maxTemplates);
    var u := Inserted(f, o.key, maxTemplates);
    PrunedShape(u);
    forall i | 0 <= i < |Pruned(u)|
      ensures Pruned(u)[i].weight >= NEGLIGIBLE
    {
      assert Pruned(u)[i] in Pruned(u);
    }
  }

  lemma {:induction false} ProfileStaysShaped(obs: seq<Obs>, q: real, maxTemplates: nat)
    requires maxTemplates > 0
    ensures Shaped(Run(obs, q, maxTemplates).counts, maxTemplates)
    ensures Run(obs, q, maxTemplates).last == Clock(obs)
  {
    if obs == [] {
    } else {
      ProfileStaysShaped(obs[..|obs| - 1], q, maxTemplates);
      StepShape(Run(obs[..|obs| - 1], q, maxTemplates), obs[|obs| - 1], q, maxTemplates);
    }
  }

  /** Weight of template `key` that an observation displaces, or leaves to be pruned. */
  ghost function Gone(counts: seq<Entry>, p: real, template: nat, maxTemplates: nat, key: nat): real {
    GoneFrom(Faded(counts, p), template, maxTemplates, key)
  }

  ghost function GoneFrom(faded: seq<Entry>, template: nat, maxTemplates: nat, key: nat): real {
    var u := Inserted(faded, template, maxTemplates);
    (if Displaced(faded, template, maxTemplates) == Some(key) then WeightOf(faded, key) else 0.0)
    + (if WeightOf(u, key) < NEGLIGIBLE then WeightOf(u, key) else 0.0)
  }

  /** Forgotten weight of template `key`: older losses fade, what is displaced or pruned now is added. */
  ghost function Lost(obs: seq<Obs>, q: real, maxTemplates: nat, key: nat): real {
    if obs == [] then 0.0
    else
      var before, o := obs[..|obs| - 1], obs[|obs| - 1];
      var s := Run(before, q, maxTemplates);
      var p := Pow(q, SatSub(o.bucket, s.last));
      LostStep(Lost(before, q, maxTemplates, key), p, Gone(s.counts, p, o.key, maxTemplates, key))
  }

  lemma WeightOfIsNonNegative(counts: seq<Entry>, key: nat)
    requires Positive(counts)
    ensures WeightOf(counts, key) >= 0.0
  {
  }

  lemma InsertedPositive(counts: seq<Entry>, template: nat, maxTemplates: nat)
    requires Positive(counts)
    ensures Positive(Inserted(counts, template, maxTemplates))
  {
  }

  lemma InsertionAccount(faded: seq<Entry>, template: nat, maxTemplates: nat, key: nat)
    requires DistinctKeys(faded) && Positive(faded)
    ensures WeightOf(Pruned(Inserted(faded, template, maxTemplates)), key)
            + GoneFrom(faded, template, maxTemplates, key)
              == WeightOf(faded, key) + if key == template then 1.0 else 0.0
    ensures GoneFrom(faded, template, maxTemplates, key) >= 0.0
  {
    WeightOfIsNonNegative(faded, key);
    InsertedWeight(faded, template, maxTemplates, key);
    InsertedPositive(faded, template, maxTemplates);
    var u := Inserted(faded, template, maxTemplates);
    WeightOfIsNonNegative(u, key);
    WeightOfPruned(u, key);
  }

  lemma FadedAccount(faded: seq<Entry>, held: real, p: real, lost: real, aged: real, template: nat, maxTemplates: nat,
      key: nat)
    requires p > 0.0 && DistinctKeys(faded) && Positive(faded) && WeightOf(faded, key) == held * p
    requires held + lost == aged && lost >= 0.0
    ensures WeightOf(Pruned(Inserted(faded, template, maxTemplates)), key)
              + LostStep(lost, p, GoneFrom(faded, template, maxTemplates, key)) == Refreshed(aged, p, key == template)
    ensures LostStep(lost, p, GoneFrom(faded, template, maxTemplates, key)) >= 0.0
  {
    InsertionAccount(faded, template, maxTemplates, key);
    WeightIsConserved(held, lost, p, aged, GoneFrom(faded, template, maxTemplates, key),
                      WeightOf(Pruned(Inserted(faded, template, maxTemplates)), key), key == template);
  }

  lemma ProfileStep(counts: seq<Entry>, p: real, lost: real, aged: real, template: nat, maxTemplates: nat, key: nat)
    requires p > 0.0 && Shaped(counts, maxTemplates)
    requires WeightOf(counts, key) + lost == aged && lost >= 0.0
    ensures WeightOf(Observed(counts, p, template, maxTemplates), key)
              + LostStep(lost, p, Gone(counts, p, template, maxTemplates, key)) == Refreshed(aged, p, key == template)
    ensures LostStep(lost, p, Gone(counts, p, template, maxTemplates, key)) >= 0.0
  {
    WeightOfFaded(counts, p, key);
    FadedPositive(counts, p);
    FadedAccount(Faded(counts, p), WeightOf(counts, key), p, lost, aged, template, maxTemplates, key);
  }

  ghost function Is(key: nat): nat -> bool { k => k == key }

  lemma {:induction false} RunUnfold(before: seq<Obs>, o: Obs, q: real, maxTemplates: nat, p: real)
    requires p == Pow(q, SatSub(o.bucket, Run(before, q, maxTemplates).last))
    ensures Run(before + [o], q, maxTemplates).counts
            == Observed(Run(before, q, maxTemplates).counts, p, o.key, maxTemplates)
  {
    assert (before + [o])[..|before|] == before;
  }

  lemma {:induction false} LostUnfold(before: seq<Obs>, o: Obs, q: real, maxTemplates: nat, key: nat, p: real)
    requires p == Pow(q, SatSub(o.bucket, Run(before, q, maxTemplates).last))
    ensures Lost(before + [o], q, maxTemplates, key) ==
              LostStep(Lost(before, q, maxTemplates, key), p,
                  Gone(Run(before, q, maxTemplates).counts, p, o.key, maxTemplates, key))
  {
    assert (before + [o])[..|before|] == before;
  }

  /**
   For every template, its weight plus what was displaced or pruned is the sum over its
   observations of the decay since their bucket; so the weight never exceeds that sum.
   */
  lemma {:induction false} TemplateWeightHasClosedForm(obs: seq<Obs>, q: real, maxTemplates: nat, key: nat)
    requires maxTemplates > 0 && Rate(q)
    ensures WeightOf(Run(obs, q, maxTemplates).counts, key) + Lost(obs, q, maxTemplates, key)
              == Aged(obs, Is(key), q, Clock(obs))
    ensures Lost(obs, q, maxTemplates, key) >= 0.0
  {
    if obs == [] {
    } else {
      var before, o := obs[..|obs| - 1], obs[|obs| - 1];
      assert obs == before + [o];
      TemplateWeightHasClosedForm(before, q, maxTemplates, key);
      ProfileStaysShaped(before, q, maxTemplates);
      var counts := Run(before, q, maxTemplates).counts;
      var gap := SatSub(o.bucket, Clock(before));
      PowRange(q, gap);
      StepClosedForm(before, o, q, maxTemplates, key, counts, Pow(q, gap), Lost(before, q, maxTemplates, key),
                     Aged(before, Is(key), q, Clock(before)));
    }
  }

  lemma {:induction false} StepClosedForm(before: seq<Obs>, o: Obs, q: real, maxTemplates: nat, key: nat,
                       counts: seq<Entry>, p: real, lost: real, aged: real)
    requires counts == Run(before, q, maxTemplates).counts && Run(before, q, maxTemplates).last == Clock(before)
    requires p == Pow(q, SatSub(o.bucket, Clock(before))) && p > 0.0 && Shaped(counts, maxTemplates)
    requires lost == Lost(before, q, maxTemplates, key) >= 0.0 && aged == Aged(before, Is(key), q, Clock(before))
    requires WeightOf(counts, key) + lost == aged
    ensures var obs := before + [o];
            && WeightOf(Run(obs, q, maxTemplates).counts, key) + Lost(obs, q, maxTemplates, key)
               == Aged(obs, Is(key), q, Clock(obs))
            && Lost(obs, q, maxTemplates, key) >= 0.0
  {
    RunUnfold(before, o, q, maxTemplates, p);
    LostUnfold(before, o, q, maxTemplates, key, p);
    AgedStep(before, o, Is(key), q);
    ProfileStep(counts, p, lost, aged, o.key, maxTemplates, key);
  }

  /** Whatever is given up for a new template weighs no more than anything that stays, and it is the only loss. */
  lemma {:induction false} DisplacedIsLightest(counts: seq<Entry>, template: nat, maxTemplates: nat, d: nat, key: nat)
    requires DistinctKeys(counts) && Displaced(counts, template, maxTemplates) == Some(d)
    requires Find(counts, key).Some?
    ensures WeightOf(counts, d) <= WeightOf(counts, key)
    ensures WeightOf(Inserted(counts, template, maxTemplates), key) == if key == d then 0.0 else WeightOf(counts, key)
  {
    var l, k := Lightest(counts), Find(counts, key).value;
    WeightOfAt(counts, l);
    WeightOfAt(counts, k);
    InsertedWeight(counts, template, maxTemplates, key);
  }
}
