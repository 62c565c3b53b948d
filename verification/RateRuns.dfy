/**
 The rate tracker against the log of all events: when its histories are exact, and when not.
 */
module RateRuns {
  import opened Common
  import opened Rate

  // ------------------------------------------------ the plain log

  /** The running bucket after the events: late events do not move it back. */
  ghost function Clock(evs: seq<Event>, cfg: RateConfig): nat
    requires cfg.Valid()
  {
    if evs == [] then 0
    else Max(Clock(evs[..|evs| - 1], cfg), BucketOf(cfg, evs[|evs| - 1].now))
  }

  /** Number of events of template `id` that were counted in bucket `b`. */
  ghost function Count(evs: seq<Event>, cfg: RateConfig, id: nat, b: nat): nat
    requires cfg.Valid()
  {
    if evs == [] then 0
    else Count(evs[..|evs| - 1], cfg, id, b) + if evs[|evs| - 1].id == id && Clock(evs, cfg) == b then 1 else 0
  }

  ghost function Run(cfg: RateConfig, evs: seq<Event>): State
    requires cfg.Valid()
  {
    if evs == [] then EMPTY else Step(Run(cfg, evs[..|evs| - 1]), cfg, evs[|evs| - 1])
  }

  /** Every template given up was a permitted choice. */
  ghost predicate ValidRun(cfg: RateConfig, evs: seq<Event>)
    requires cfg.Valid()
  {
    evs == [] ||
    (var n := |evs| - 1;
     var a := Advance(Run(cfg, evs[..n]), cfg, BucketOf(cfg, evs[n].now));
     ValidRun(cfg, evs[..n]) && ValidVictim(a.rates, cfg, evs[n].id, evs[n].victim))
  }

  lemma {:induction false} NothingAfterTheClock(evs: seq<Event>, cfg: RateConfig, id: nat, b: nat)
    requires cfg.Valid() && b > Clock(evs, cfg)
    ensures Count(evs, cfg, id, b) == 0
  {
    if evs == [] {
    } else {
      NothingAfterTheClock(evs[..|evs| - 1], cfg, id, b);
    }
  }

  lemma {:induction false} ClockBounds(evs: seq<Event>, cfg: RateConfig)
    requires cfg.Valid() && evs != []
    ensures Run(cfg, evs).started && Run(cfg, evs).current == Clock(evs, cfg)
    ensures Run(cfg, evs).start == BucketOf(cfg, evs[0].now) <= Clock(evs, cfg)
  {
    if |evs| > 1 {
      ClockBounds(evs[..|evs| - 1], cfg);
      assert evs[..|evs| - 1][0] == evs[0];
    } else {
      assert evs[..0] == [];
    }
  }

  // ------------------------------------------------ lengths, in every run

  ghost predicate LengthsExact(s: State, cfg: RateConfig) {
    && (s.started ==> s.start <= s.current)
    && (!s.started ==> s.rates == map[])
    && forall id :: id in s.rates ==> |s.rates[id].history| == Window(s, cfg)
  }

  lemma {:induction false} PushedLength(h: seq<nat>, v: nat, gap: nat, historyLen: nat)
    requires |h| <= historyLen && historyLen > 0 && gap > 0
    ensures |PushZeros(PushBounded(h, v, historyLen), Min(gap, historyLen) - 1, historyLen)|
            == Min(|h| + gap, historyLen)
  {
    PushZerosIsSuffix(PushBounded(h, v, historyLen), Min(gap, historyLen) - 1, historyLen);
  }

  lemma AdvanceLengths(s: State, cfg: RateConfig, bucket: nat)
    requires cfg.Valid() && LengthsExact(s, cfg)
    ensures LengthsExact(Advance(s, cfg, bucket), cfg)
  {
    if s.started && bucket > s.current {
      var a := Advance(s, cfg, bucket);
      forall id | id in a.rates
        ensures |a.rates[id].history| == Window(a, cfg)
      {
        PushedLength(s.rates[id].history, s.rates[id].current, bucket - s.current, cfg.historyLen);
      }
    }
  }

  /** In every run, each history holds one entry per bucket closed since the first event, up to the bound. */
  lemma {:induction false} HistoriesHaveFullLength(cfg: RateConfig, evs: seq<Event>)
    requires cfg.Valid()
    ensures LengthsExact(Run(cfg, evs), cfg)
  {
    if evs == [] {
    } else {
      var n := |evs| - 1;
      HistoriesHaveFullLength(cfg, evs[..n]);
      var s := Run(cfg, evs[..n]);
      AdvanceLengths(s, cfg, BucketOf(cfg, evs[n].now));
    }
  }

  lemma {:induction false} TrackedIsBounded(cfg: RateConfig, evs: seq<Event>)
    requires cfg.Valid() && ValidRun(cfg, evs)
    ensures |Run(cfg, evs).rates| <= cfg.maxTemplates
  {
    if evs == [] {
    } else {
      var n, e := |evs| - 1, evs[|evs| - 1];
      TrackedIsBounded(cfg, evs[..n]);
      var s := Run(cfg, evs[..n]);
      var a := Advance(s, cfg, BucketOf(cfg, e.now));
      assert a.rates.Keys <= s.rates.Keys;
      KeysBound(a.rates, s.rates);
      var kept := Without(a.rates, e.victim);
      if e.victim.Some? {
        assert kept.Keys == a.rates.Keys - {e.victim.value};
        assert |kept.Keys| == |a.rates.Keys| - 1;
      }
      assert Run(cfg, evs).rates.Keys == kept.Keys + {e.id};
    }
  }

  lemma KeysBound<V>(small: map<nat, V>, large: map<nat, V>)
    requires small.Keys <= large.Keys
    ensures |small| <= |large|
  {
    assert large.Keys == small.Keys + (large.Keys - small.Keys);
    assert |large.Keys| == |small.Keys| + |large.Keys - small.Keys|;
  }

  // ------------------------------------------------ contents

  /** The last bucket a tracked template was counted in. */
  ghost predicate ActivityExact(rates: map<nat, TemplateRate>, evs: seq<Event>, cfg: RateConfig)
    requires cfg.Valid()
  {
    forall id :: id in rates ==>
      && Count(evs, cfg, id, rates[id].lastActive) > 0
      && forall b :: b > rates[id].lastActive ==> Count(evs, cfg, id, b) == 0
  }

  /** One template agrees with the log in the last `window` closed buckets and the running one, `clock`. */
  ghost predicate Agrees(entry: Option<TemplateRate>, id: nat, clock: nat, window: nat, evs: seq<Event>,
      cfg: RateConfig)
    requires cfg.Valid() && window <= clock
  {
    match entry
    case Some(rate) =>
      && |rate.history| == window
      && rate.current == Count(evs, cfg, id, clock)
      && forall k :: 0 <= k < window ==> rate.history[k] == Count(evs, cfg, id, clock - window + k)
    case None =>
      forall b :: clock - window <= b <= clock ==> Count(evs, cfg, id, b) == 0
  }

  /** All templates, tracked or not, agree with the log. */
  ghost predicate Reflects(s: State, evs: seq<Event>, cfg: RateConfig)
    requires cfg.Valid() && Window(s, cfg) <= s.current
  {
    forall id :: Agrees(Lookup(s.rates, id), id, s.current, Window(s, cfg), evs, cfg)
  }

  /** What the bucket change leaves in a history, position by position. */
  lemma RolledHistory(rate: TemplateRate, gap: nat, historyLen: nat)
    requires |rate.history| <= historyLen && historyLen > 0 && gap > 0
    ensures
      var h, h' := rate.history, RollRate(rate, gap, historyLen).history;
      var fill := Min(gap, historyLen);
      && |h'| == Min(|h| + gap, historyLen)
      && forall k :: 0 <= k < |h'| ==>
          h'[k] == if k > |h'| - fill then 0 else if k == |h'| - fill then rate.current else h[|h| + fill - |h'| + k]
  {
    PushZerosIsSuffix(PushBounded(rate.history, rate.current, historyLen), Min(gap, historyLen) - 1, historyLen);
  }

  /** A surviving template is exact after a bucket change exactly when the jump fits the history or it was quiet. */
  lemma {:induction false} RollAgrees(rate: TemplateRate, id: nat, clock: nat, window: nat, start: nat, target: nat,
      evs: seq<Event>, cfg: RateConfig)
    requires cfg.Valid() && start <= clock < target && window == Min(clock - start, cfg.historyLen)
    requires clock == Clock(evs, cfg)
    requires Agrees(Some(rate), id, clock, window, evs, cfg)
    ensures
      var gap := target - clock;
      Agrees(Some(RollRate(rate, gap, cfg.historyLen)), id, target, Min(target - start, cfg.historyLen), evs, cfg)
      <==> gap <= cfg.historyLen || rate.current == 0
  {
    var gap := target - clock;
    var window' := Min(target - start, cfg.historyLen);
    var rolled := RollRate(rate, gap, cfg.historyLen);
    RolledHistory(rate, gap, cfg.historyLen);
    forall b | b > clock
      ensures Count(evs, cfg, id, b) == 0
    {
      NothingAfterTheClock(evs, cfg, id, b);
    }
    if gap > cfg.historyLen {
      assert rolled.history[0] == rate.current;
    }
  }

  /**
   Whether what one event does to template `id` keeps it exact: a template that stays must not
   be carried over a jump longer than the history with a non-zero count, and a template that is
   forgotten must have been silent for the whole window.
   */
  ghost predicate StepKeepsExact(s: State, cfg: RateConfig, e: Event, id: nat)
    requires cfg.Valid()
  {
    id in s.rates ==>
      var a := Advance(s, cfg, BucketOf(cfg, e.now));
      var gap := a.current - s.current;
      if id in a.rates && e.victim != Some(id) then gap <= cfg.historyLen || s.rates[id].current == 0
      else s.rates[id].lastActive < a.current - Window(a, cfg)
  }

  lemma ForgottenAgrees(s: State, id: nat, clock: nat, window: nat, evs: seq<Event>, cfg: RateConfig)
    requires cfg.Valid() && window <= clock && id in s.rates
    requires ActivityExact(s.rates, evs, cfg) && s.rates[id].lastActive <= clock
    ensures Agrees(None, id, clock, window, evs, cfg) <==> s.rates[id].lastActive < clock - window
  {
  }

  /** A template that was not tracked before the clock moved is silent in the new window as well. */
  lemma {:induction false} UntrackedStaysSilent(id: nat, clock: nat, start: nat, target: nat, evs: seq<Event>,
      cfg: RateConfig)
    requires cfg.Valid() && start <= clock <= target && clock == Clock(evs, cfg)
    requires Agrees(None, id, clock, Min(clock - start, cfg.historyLen), evs, cfg)
    ensures Agrees(None, id, target, Min(target - start, cfg.historyLen), evs, cfg)
  {
    var window' := Min(target - start, cfg.historyLen);
    forall b | target - window' <= b <= target
      ensures Count(evs, cfg, id, b) == 0
    {
      if b > clock {
        NothingAfterTheClock(evs, cfg, id, b);
      }
    }
  }

  /** Before the event itself is counted. */
  lemma {:induction false} AdvancedEntryAgrees(s: State, cfg: RateConfig, e: Event, id: nat, evs: seq<Event>)
    requires cfg.Valid() && s.started && s.start <= s.current == Clock(evs, cfg)
    requires Reflects(s, evs, cfg) && ActivityExact(s.rates, evs, cfg)
    requires forall i :: i in s.rates ==> s.rates[i].lastActive <= s.current
    ensures
      var a := Advance(s, cfg, BucketOf(cfg, e.now));
      Agrees(Lookup(Without(a.rates, e.victim), id), id, a.current, Window(a, cfg), evs, cfg)
      <==> StepKeepsExact(s, cfg, e, id)
  {
    var a := Advance(s, cfg, BucketOf(cfg, e.now));
    assert Agrees(Lookup(s.rates, id), id, s.current, Window(s, cfg), evs, cfg);
    if id in s.rates {
      if id in a.rates && e.victim != Some(id) {
        if a.current > s.current {
          RollAgrees(s.rates[id], id, s.current, Window(s, cfg), s.start, a.current, evs, cfg);
        }
      } else {
        ForgottenAgrees(s, id, a.current, Window(a, cfg), evs, cfg);
      }
    } else {
      UntrackedStaysSilent(id, s.current, s.start, a.current, evs, cfg);
    }
  }

  /** Counting the event moves tracker and log alike. */
  lemma {:induction false} CountingKeepsAgreement(entry: Option<TemplateRate>, id: nat, clock: nat, window: nat,
                               evs: seq<Event>, e: Event, cfg: RateConfig)
    requires cfg.Valid() && window <= clock && Clock(evs + [e], cfg) == clock
    ensures
      var after := if id == e.id then Some(Counted(entry, window, clock)) else entry;
      Agrees(after, id, clock, window, evs + [e], cfg) <==> Agrees(entry, id, clock, window, evs, cfg)
  {
    assert (evs + [e])[..|evs|] == evs;
    var after := if id == e.id then Some(Counted(entry, window, clock)) else entry;
    forall b
      ensures Count(evs + [e], cfg, id, b) == Count(evs, cfg, id, b) + if id == e.id && b == clock then 1 else 0
    {
    }
    if entry.None? && id == e.id && Agrees(after, id, clock, window, evs + [e], cfg) {
      forall b | clock - window <= b <= clock
        ensures Count(evs, cfg, id, b) == 0
      {
        if b < clock {
          assert after.value.history[b - (clock - window)] == 0;
        }
      }
    }
  }

  /** From an exact tracker, one event leaves it exact if and only if it keeps every template exact. */
  lemma {:induction false} StepReflectsExactly(s: State, cfg: RateConfig, evs: seq<Event>, e: Event)
    requires cfg.Valid() && s.started && s.start <= s.current == Clock(evs, cfg)
    requires Reflects(s, evs, cfg) && ActivityExact(s.rates, evs, cfg)
    requires forall i :: i in s.rates ==> s.rates[i].lastActive <= s.current
    ensures Reflects(Step(s, cfg, e), evs + [e], cfg) <==> forall id :: StepKeepsExact(s, cfg, e, id)
  {
    var a := Advance(s, cfg, BucketOf(cfg, e.now));
    var t := Step(s, cfg, e);
    var kept := Without(a.rates, e.victim);
    assert (evs + [e])[..|evs|] == evs;
    forall id
      ensures Agrees(Lookup(t.rates, id), id, t.current, Window(t, cfg), evs + [e], cfg)
              <==> StepKeepsExact(s, cfg, e, id)
    {
      AdvancedEntryAgrees(s, cfg, e, id, evs);
      CountingKeepsAgreement(Lookup(kept, id), id, a.current, Window(a, cfg), evs, e, cfg);
    }
  }

  lemma {:induction false} ActivityIsExact(cfg: RateConfig, evs: seq<Event>)
    requires cfg.Valid()
    ensures ActivityExact(Run(cfg, evs).rates, evs, cfg)
    ensures forall id :: id in Run(cfg, evs).rates ==> Run(cfg, evs).rates[id].lastActive <= Clock(evs, cfg)
  {
    if evs == [] {
    } else {
      var n, e := |evs| - 1, evs[|evs| - 1];
      ActivityIsExact(cfg, evs[..n]);
      ClockBounds(evs, cfg);
      var s, t := Run(cfg, evs[..n]), Run(cfg, evs);
      forall id | id in t.rates
        ensures Count(evs, cfg, id, t.rates[id].lastActive) > 0
        ensures forall b :: b > t.rates[id].lastActive ==> Count(evs, cfg, id, b) == 0
        ensures t.rates[id].lastActive <= Clock(evs, cfg)
      {
        if id == e.id {
          forall b | b > t.rates[id].lastActive
            ensures Count(evs, cfg, id, b) == 0
          {
            NothingAfterTheClock(evs, cfg, id, b);
          }
        } else {
          assert id in s.rates && t.rates[id].lastActive == s.rates[id].lastActive;
        }
      }
    }
  }

  lemma {:induction false} FirstEventReflects(cfg: RateConfig, e: Event)
    requires cfg.Valid() && e.victim == None
    ensures Reflects(Run(cfg, [e]), [e], cfg)
  {
    var evs := [e];
    assert evs[..|evs| - 1] == [];
    assert Run(cfg, []) == EMPTY && Clock([], cfg) == 0;
    var t := Run(cfg, evs);
    forall id, b
      ensures Count(evs, cfg, id, b) == if id == e.id && b == BucketOf(cfg, e.now) then 1 else 0
    {
      assert Count([], cfg, id, b) == 0;
    }
    assert Window(t, cfg) == 0;
  }

  lemma {:induction false} FirstEventDisplacesNothing(cfg: RateConfig, evs: seq<Event>)
    requires cfg.Valid() && |evs| == 1 && ValidRun(cfg, evs)
    ensures evs[0].victim == None
  {
    assert evs[..0] == [];
  }

  /** Every event of the run kept every template exact. */
  ghost predicate AlwaysExact(cfg: RateConfig, evs: seq<Event>)
    requires cfg.Valid()
  {
    |evs| <= 1 ||
    (var n := |evs| - 1;
     AlwaysExact(cfg, evs[..n]) && forall id :: StepKeepsExact(Run(cfg, evs[..n]), cfg, evs[n], id))
  }

  lemma {:induction false} ExactRunsReflectTheLog(cfg: RateConfig, evs: seq<Event>)
    requires cfg.Valid() && ValidRun(cfg, evs) && evs != [] && AlwaysExact(cfg, evs)
    ensures Window(Run(cfg, evs), cfg) <= Run(cfg, evs).current
    ensures Reflects(Run(cfg, evs), evs, cfg)
  {
    hide Step, Reflects, ActivityExact, StepKeepsExact, ValidVictim, Advance, Clock;
    var n := |evs| - 1;
    ClockBounds(evs, cfg);
    if n == 0 {
      assert evs == [evs[0]] && evs[..0] == [];
      FirstEventDisplacesNothing(cfg, evs);
      FirstEventReflects(cfg, evs[0]);
    } else {
      ExactRunsReflectTheLog(cfg, evs[..n]);
      ClockBounds(evs[..n], cfg);
      ActivityIsExact(cfg, evs[..n]);
      StepReflectsExactly(Run(cfg, evs[..n]), cfg, evs[..n], evs[n]);
      assert evs == evs[..n] + [evs[n]];
    }
  }

  /**
   The jump to the next event is harmless: it fits the history, or it is so long that every
   template is forgotten.
   */
  ghost predicate HarmlessJump(s: State, cfg: RateConfig, e: Event)
    requires cfg.Valid()
  {
    var gap := SatSub(BucketOf(cfg, e.now), s.current);
    gap <= cfg.historyLen || gap > cfg.idleBuckets
  }

  ghost predicate Undisturbed(cfg: RateConfig, evs: seq<Event>)
    requires cfg.Valid()
  {
    evs == [] ||
    (var n := |evs| - 1;
     && Undisturbed(cfg, evs[..n])
     && evs[n].victim == None
     && (n > 0 ==> HarmlessJump(Run(cfg, evs[..n]), cfg, evs[n])))
  }

  /**
   With an idle limit of at least the history length, no template given up for lack of space and
   only harmless jumps, every history equals the log, also after a template was forgotten and came back.
   */
  lemma {:induction false} HistoriesReflectTheLog(cfg: RateConfig, evs: seq<Event>)
    requires cfg.Valid() && ValidRun(cfg, evs) && evs != []
    requires cfg.idleBuckets >= cfg.historyLen && Undisturbed(cfg, evs)
    ensures Window(Run(cfg, evs), cfg) <= Run(cfg, evs).current
    ensures Reflects(Run(cfg, evs), evs, cfg)
  {
    UndisturbedIsExact(cfg, evs);
    ExactRunsReflectTheLog(cfg, evs);
  }

  lemma {:induction false} UndisturbedIsExact(cfg: RateConfig, evs: seq<Event>)
    requires cfg.Valid() && cfg.idleBuckets >= cfg.historyLen && Undisturbed(cfg, evs)
    ensures AlwaysExact(cfg, evs)
  {
    if |evs| > 1 {
      var n := |evs| - 1;
      UndisturbedIsExact(cfg, evs[..n]);
      ClockBounds(evs[..n], cfg);
      ActivityIsExact(cfg, evs[..n]);
    }
  }

  /**
   The jump condition is sharp. If some tracked template was counted in the running bucket, an
   event without a template given up leaves the tracker exact if and only if its jump is harmless.
   */
  lemma {:induction false} HarmfulJumpBreaksHistories(s: State, cfg: RateConfig, evs: seq<Event>, e: Event, busy: nat)
    requires cfg.Valid() && s.started && s.start <= s.current == Clock(evs, cfg)
    requires Reflects(s, evs, cfg) && ActivityExact(s.rates, evs, cfg)
    requires forall i :: i in s.rates ==> s.rates[i].lastActive <= s.current
    requires cfg.idleBuckets >= cfg.historyLen && e.victim == None
    requires busy in s.rates && s.rates[busy].lastActive == s.current
    ensures Reflects(Step(s, cfg, e), evs + [e], cfg) <==> HarmlessJump(s, cfg, e)
  {
    StepReflectsExactly(s, cfg, evs, e);
    assert Agrees(Lookup(s.rates, busy), busy, s.current, Window(s, cfg), evs, cfg);
    assert s.rates[busy].current > 0;
    if !HarmlessJump(s, cfg, e) {
      assert !StepKeepsExact(s, cfg, e, busy);
    }
  }

  /** Concrete case: history of two buckets, a jump of three; the entry for bucket 1 shows the event of bucket 0. */
  lemma LongJumpKeepsAStaleCount()
    ensures
      var cfg := RateConfig(1, 2, 10, 5);
      var s := Run(cfg, [Event(0, 7, None), Event(3, 8, None)]);
      && 7 in s.rates && s.rates[7].history == [1, 0]
      && Count([Event(0, 7, None), Event(3, 8, None)], cfg, 7, 1) == 0
  {
    var cfg := RateConfig(1, 2, 10, 5);
    var e1, e2 := Event(0, 7, None), Event(3, 8, None);
    var evs1, evs2 := [e1], [e1, e2];
    assert evs1[..|evs1| - 1] == [] && evs2[..|evs2| - 1] == evs1;
    assert Run(cfg, []) == EMPTY && Clock([], cfg) == 0 && Count([], cfg, 7, 1) == 0;
    var one := Run(cfg, evs1);
    assert one == Step(EMPTY, cfg, e1) && Zeros(0) == [];
    assert one.rates == map[7 := TemplateRate(1, [], 0)];
    assert Clock(evs1, cfg) == 0 && Count(evs1, cfg, 7, 1) == 0;
    assert Run(cfg, evs2) == Step(one, cfg, e2);
    assert PushZeros([1], 1, 2) == PushBounded(PushZeros([1], 0, 2), 0, 2) == [1, 0];
    assert RollRate(one.rates[7], 3, 2).history == PushZeros(PushBounded([], 1, 2), 1, 2);
    assert PushBounded([], 1, 2) == [1];
  }
}
