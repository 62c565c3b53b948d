/** Which templates the rate tracker knows after a run: those counted recently enough and not given up since. */
module RateTracked {
  import opened Common
  import opened Rate
  import opened RateRuns

  /** Event `k` is of the template, was counted within the idle limit, and no later event gave the template up. */
  ghost predicate KeptBy(cfg: RateConfig, evs: seq<Event>, id: nat, k: nat)
    requires cfg.Valid() && k < |evs|
  {
    && evs[k].id == id
    && Clock(evs[..k + 1], cfg) + cfg.idleBuckets >= Clock(evs, cfg)
    && forall j :: k < j < |evs| ==> evs[j].victim != Some(id)
  }

  lemma {:induction false} ClockGrows(evs: seq<Event>, cfg: RateConfig, n: nat)
    requires cfg.Valid() && n <= |evs|
    ensures Clock(evs[..n], cfg) <= Clock(evs, cfg)
  {
    if n < |evs| {
      ClockGrows(evs[..|evs| - 1], cfg, n);
      assert evs[..|evs| - 1][..n] == evs[..n];
    } else {
      assert evs[..n] == evs;
    }
  }

  lemma {:induction false} KeptByLater(cfg: RateConfig, evs: seq<Event>, id: nat, k: nat)
    requires cfg.Valid() && k < |evs| - 1
    ensures var n := |evs| - 1;
            KeptBy(cfg, evs, id, k) <==>
              && KeptBy(cfg, evs[..n], id, k)
              && Clock(evs[..k + 1], cfg) + cfg.idleBuckets >= Clock(evs, cfg)
              && evs[n].victim != Some(id)
  {
    var n := |evs| - 1;
    ClockGrows(evs, cfg, n);
    assert evs[..n][..k + 1] == evs[..k + 1];
    assert forall j :: 0 <= j < n ==> evs[..n][j] == evs[j];
  }

  /** The last event of a tracked template is what keeps it. */
  ghost predicate LastKeeps(cfg: RateConfig, evs: seq<Event>, id: nat, rate: TemplateRate, k: nat)
    requires cfg.Valid() && k < |evs|
  {
    && KeptBy(cfg, evs, id, k) && rate.lastActive == Clock(evs[..k + 1], cfg)
    && forall j :: k < j < |evs| ==> evs[j].id != id
  }

  /** What stays tracked through an event of another template. */
  lemma StaysTracked(s: State, cfg: RateConfig, e: Event, id: nat)
    requires cfg.Valid() && s.started && id != e.id
    ensures
      var t := Step(s, cfg, e);
      && (id in t.rates <==>
            && id in s.rates && e.victim != Some(id)
            && (t.current == s.current || s.rates[id].lastActive + cfg.idleBuckets >= t.current))
      && (id in t.rates ==> t.rates[id].lastActive == s.rates[id].lastActive)
  {
  }

  lemma {:induction false} OwnEventTracks(s: State, cfg: RateConfig, e: Event)
    requires cfg.Valid()
    ensures e.id in Step(s, cfg, e).rates && Step(s, cfg, e).rates[e.id].lastActive == Step(s, cfg, e).current
  {
  }

  lemma {:induction false} TrackedIsKept(cfg: RateConfig, evs: seq<Event>, id: nat) returns (k: nat)
    requires cfg.Valid() && id in Run(cfg, evs).rates
    ensures k < |evs| && LastKeeps(cfg, evs, id, Run(cfg, evs).rates[id], k)
  {
    hide Step;
    var n := |evs| - 1;
    var s := Run(cfg, evs[..n]);
    ClockBounds(evs, cfg);
    if evs[n].id == id {
      k := n;
      assert evs[..n + 1] == evs;
      OwnEventTracks(s, cfg, evs[n]);
    } else {
      if n == 0 {
        assert s == EMPTY;
        NothingTrackedAtFirst(cfg, evs[0], id);
      }
      ClockBounds(evs[..n], cfg);
      StaysTracked(s, cfg, evs[n], id);
      k := TrackedIsKept(cfg, evs[..n], id);
      KeptByLater(cfg, evs, id, k);
      assert evs[..n][..k + 1] == evs[..k + 1];
      hide Clock, KeptBy;
      assert forall j :: 0 <= j < n ==> evs[..n][j] == evs[j];
    }
  }

  lemma NothingTrackedAtFirst(cfg: RateConfig, e: Event, id: nat)
    requires cfg.Valid() && id != e.id
    ensures id !in Step(EMPTY, cfg, e).rates
  {
  }

  lemma {:induction false} KeptIsTracked(cfg: RateConfig, evs: seq<Event>, id: nat, k: nat)
    requires cfg.Valid() && k < |evs| && KeptBy(cfg, evs, id, k)
    ensures id in Run(cfg, evs).rates
    ensures Run(cfg, evs).rates[id].lastActive >= Clock(evs[..k + 1], cfg)
  {
    hide Step;
    var n := |evs| - 1;
    var s := Run(cfg, evs[..n]);
    ClockBounds(evs, cfg);
    OwnEventTracks(s, cfg, evs[n]);
    if k == n {
      assert evs[..n + 1] == evs;
    } else {
      KeptByLater(cfg, evs, id, k);
      KeptIsTracked(cfg, evs[..n], id, k);
      ClockBounds(evs[..n], cfg);
      assert evs[..n][..k + 1] == evs[..k + 1];
      ClockGrows(evs, cfg, k + 1);
      if evs[n].id != id {
        StaysTracked(s, cfg, evs[n], id);
      }
    }
  }

  /**
   In every run, a template is tracked exactly if one of its events was counted in the running bucket
   or one of the last `idleBuckets` before it, and it was not given up after that event.
   */
  lemma {:induction false} TrackedExactlyWhen(cfg: RateConfig, evs: seq<Event>, id: nat)
    requires cfg.Valid()
    ensures id in Run(cfg, evs).rates <==> exists k :: 0 <= k < |evs| && KeptBy(cfg, evs, id, k)
  {
    if id in Run(cfg, evs).rates {
      var k := TrackedIsKept(cfg, evs, id);
    }
    if k :| 0 <= k < |evs| && KeptBy(cfg, evs, id, k) {
      KeptIsTracked(cfg, evs, id, k);
    }
  }

  /** Without a template given up, the tracked templates are those counted recently enough. */
  lemma {:induction false} RecentTemplatesAreTracked(cfg: RateConfig, evs: seq<Event>, id: nat)
    requires cfg.Valid() && forall k :: 0 <= k < |evs| ==> evs[k].victim == None
    ensures id in Run(cfg, evs).rates <==>
              exists b :: SatSub(Clock(evs, cfg), cfg.idleBuckets) <= b <= Clock(evs, cfg) && Count(evs, cfg, id, b) > 0
  {
    hide Run, Clock, Count;
    TrackedExactlyWhen(cfg, evs, id);
    if id in Run(cfg, evs).rates {
      var k := TrackedIsKept(cfg, evs, id);
      ClockGrows(evs, cfg, k + 1);
      CountedSomewhere(cfg, evs, id, k);
    }
    if b :| SatSub(Clock(evs, cfg), cfg.idleBuckets) <= b <= Clock(evs, cfg) && Count(evs, cfg, id, b) > 0 {
      var k := SomeEventCounted(cfg, evs, id, b);
      assert KeptBy(cfg, evs, id, k);
    }
  }

  lemma {:induction false} CountedSomewhere(cfg: RateConfig, evs: seq<Event>, id: nat, k: nat)
    requires cfg.Valid() && k < |evs| && evs[k].id == id
    ensures Count(evs, cfg, id, Clock(evs[..k + 1], cfg)) > 0
  {
    var n := |evs| - 1;
    if k == n {
      assert evs[..n + 1] == evs;
    } else {
      CountedSomewhere(cfg, evs[..n], id, k);
      assert evs[..n][..k + 1] == evs[..k + 1];
    }
  }

  lemma {:induction false} SomeEventCounted(cfg: RateConfig, evs: seq<Event>, id: nat, b: nat) returns (k: nat)
    requires cfg.Valid() && Count(evs, cfg, id, b) > 0
    ensures k < |evs| && evs[k].id == id && Clock(evs[..k + 1], cfg) == b
  {
    var n := |evs| - 1;
    if evs[n].id == id && Clock(evs, cfg) == b {
      k := n;
      assert evs[..n + 1] == evs;
    } else {
      k := SomeEventCounted(cfg, evs[..n], id, b);
      assert evs[..n][..k + 1] == evs[..k + 1];
    }
  }
}
