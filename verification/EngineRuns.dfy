/**
 The engine over whole runs: scoring and damping are separable, learning is out of reach of every
 damping setting, and the parts of the engine see every event.
 */
module EngineRuns {
  import opened Common
  import opened Engine
  import Damping
  import Rate
  import RateRuns
  import Window

  /** The engine after a run, or nothing if it panicked. */
  function Run(cfg: Config, m: Measures, skipped: bool, evs: seq<Event>): Option<State> {
    if evs == [] then Some(State(UNTAUGHT, Idle(skipped)))
    else
      var s := Run(cfg, m, skipped, evs[..|evs| - 1]);
      var e := evs[|evs| - 1];
      if s.None? || Faults(s.value, cfg, e.input.now) then None else Some(Step(s.value, cfg, m, e))
  }

  /** What the engine reports on the last event. */
  function LastReport(cfg: Config, m: Measures, skipped: bool, evs: seq<Event>): Option<Anomaly>
    requires evs != []
  {
    var s := Run(cfg, m, skipped, evs[..|evs| - 1]);
    var e := evs[|evs| - 1];
    if s.None? || Faults(s.value, cfg, e.input.now) then None else Report(s.value, cfg, m, e)
  }

  // ------------------------------------------------ learning on its own

  /** What a run teaches, computed without any reporting state. */
  function Taught(cfg: Config, m: Measures, evs: seq<Event>): Learned {
    if evs == [] then UNTAUGHT
    else Learn(Taught(cfg, m, evs[..|evs| - 1]), cfg, m, |evs| == 1, evs[|evs| - 1].input, evs[|evs| - 1].victim)
  }

  /** The events of a run with their scores, computed without any reporting state. */
  function Scores(cfg: Config, m: Measures, evs: seq<Event>): (xs: seq<Scored>)
    ensures |xs| == |evs|
  {
    if evs == [] then []
    else Scores(cfg, m, evs[..|evs| - 1]) + [ScoredBy(Taught(cfg, m, evs), cfg, m, evs[|evs| - 1].input)]
  }

  // ------------------------------------------------ when the engine panics

  /** No history is configured, and some event comes in a later bucket than the first one. */
  ghost predicate Panics(cfg: Config, evs: seq<Event>) {
    cfg.historyBuckets == 0 &&
    exists k :: 0 <= k < |evs| && BucketOf(cfg, evs[k].input.now) > BucketOf(cfg, evs[0].input.now)
  }

  /** Without a history, nothing is archived and the entropy clock stands still until the first later bucket. */
  ghost predicate StillInFirstBucket(l: Learned, cfg: Config, evs: seq<Event>) {
    && l.entropyHistory == []
    && (evs != [] ==> l.entropyBucket == BucketOf(cfg, evs[0].input.now) && l.window.entries != [])
  }

  lemma WindowNeverEmpties(s: Window.State, l: Window.Limits, e: Window.Entry)
    requires l.maxEntries > 0 && (s.entries != [] || s == Window.EMPTY)
    ensures Window.Step(s, l, e).entries != []
  {
    Window.StepCounts(s, l, e);
    var cutoff := Window.Cutoff(Max(s.newest, e.time), l.windowUs);
    if e.time >= cutoff {
      Window.StepKeeps(s, l, e);
      var all := s.entries + [e];
      hide Window.Step;
      assert all[|all| - 1] == e;
      assert Window.StaleFront(all, cutoff) < |all|;
    }
  }

  lemma LearningInFirstBucket(l: Learned, cfg: Config, m: Measures, first: bool, e: Event)
    requires l.entropyHistory == [] && (if first then l == UNTAUGHT else l.window.entries != [])
    requires !first ==> BucketOf(cfg, e.input.now) <= l.entropyBucket
    ensures var after := Learn(l, cfg, m, first, e.input, e.victim);
            && after.entropyHistory == [] && after.window.entries != []
            && after.entropyBucket == if first then BucketOf(cfg, e.input.now) else l.entropyBucket
  {
    hide Window.Step, Rate.Step;
    WindowNeverEmpties(l.window, WindowLimits(cfg), Window.Entry(e.input.now, e.input.id));
  }

  lemma {:induction false} NothingArchivedYet(cfg: Config, m: Measures, evs: seq<Event>)
    requires cfg.historyBuckets == 0 && !Panics(cfg, evs)
    ensures StillInFirstBucket(Taught(cfg, m, evs), cfg, evs)
  {
    hide Learn;
    if evs == [] {
    } else {
      var n := |evs| - 1;
      PanicsLater(cfg, evs);
      NothingArchivedYet(cfg, m, evs[..n]);
      assert n > 0 ==> evs[..n][0] == evs[0];
      LearningInFirstBucket(Taught(cfg, m, evs[..n]), cfg, m, n == 0, evs[n]);
    }
  }

  /** A panic has happened before the last event or happens on it. */
  lemma PanicsLater(cfg: Config, evs: seq<Event>)
    requires evs != []
    ensures var n := |evs| - 1;
            Panics(cfg, evs) <==>
              || Panics(cfg, evs[..n])
              || (cfg.historyBuckets == 0 && BucketOf(cfg, evs[n].input.now) > BucketOf(cfg, evs[0].input.now))
  {
    var n := |evs| - 1;
    assert forall k :: 0 <= k < n ==> evs[..n][k] == evs[k];
    if Panics(cfg, evs[..n]) {
      var k :| 0 <= k < n && BucketOf(cfg, evs[..n][k].input.now) > BucketOf(cfg, evs[..n][0].input.now);
      assert BucketOf(cfg, evs[k].input.now) > BucketOf(cfg, evs[0].input.now);
    }
    if Panics(cfg, evs) {
      var k :| 0 <= k < |evs| && BucketOf(cfg, evs[k].input.now) > BucketOf(cfg, evs[0].input.now);
      assert k < n ==> BucketOf(cfg, evs[..n][k].input.now) > BucketOf(cfg, evs[..n][0].input.now);
    }
  }

  /** Whether the next event makes an engine panic that has not done so. */
  lemma {:induction false} FaultsExactlyWhen(cfg: Config, m: Measures, evs: seq<Event>)
    requires evs != [] && !Panics(cfg, evs[..|evs| - 1])
    ensures var n := |evs| - 1;
            RollFaults(Begun(Taught(cfg, m, evs[..n]), cfg, n == 0, evs[n].input.now), cfg, evs[n].input.now)
            <==> Panics(cfg, evs)
  {
    var n := |evs| - 1;
    PanicsLater(cfg, evs);
    if cfg.historyBuckets == 0 {
      NothingArchivedYet(cfg, m, evs[..n]);
      assert n > 0 ==> evs[..n][0] == evs[0];
    }
  }

  /**
   The engine is scoring followed by damping. It panics exactly if no history is configured and some
   event comes in a later bucket than the first; otherwise its knowledge is what the events
   teach, and its reporting state and reports are those of damping applied to the scores.
   */
  lemma {:induction false} EngineIsScoringThenDamping(cfg: Config, m: Measures, skipped: bool, evs: seq<Event>)
    ensures Run(cfg, m, skipped, evs)
            == if Panics(cfg, evs) then None
               else Some(State(Taught(cfg, m, evs), Damping.Run(Damping.Setup(cfg, skipped), Scores(cfg, m, evs))))
    ensures evs != [] && !Panics(cfg, evs) ==>
              LastReport(cfg, m, skipped, evs) == Damping.LastReport(Damping.Setup(cfg, skipped), Scores(cfg, m, evs))
  {
    if evs == [] {
    } else {
      var n := |evs| - 1;
      EngineIsScoringThenDamping(cfg, m, skipped, evs[..n]);
      PanicsLater(cfg, evs);
      if !Panics(cfg, evs[..n]) {
        FaultsExactlyWhen(cfg, m, evs);
        NextState(cfg, m, skipped, evs);
      }
    }
  }

  lemma {:induction false} NextState(cfg: Config, m: Measures, skipped: bool, evs: seq<Event>)
    requires evs != []
    ensures
      var n, p := |evs| - 1, Damping.Setup(cfg, skipped);
      var s := State(Taught(cfg, m, evs[..n]), Damping.Run(p, Scores(cfg, m, evs[..n])));
      && (s.reporting.firstEvent.None? <==> n == 0)
      && Step(s, cfg, m, evs[n]) == State(Taught(cfg, m, evs), Damping.Run(p, Scores(cfg, m, evs)))
      && Report(s, cfg, m, evs[n]) == Damping.LastReport(p, Scores(cfg, m, evs))
  {
    hide Decided, Reported, Noted, Learn, ScoredBy;
    var n, p := |evs| - 1, Damping.Setup(cfg, skipped);
    var xs := Scores(cfg, m, evs);
    assert xs[..n] == Scores(cfg, m, evs[..n]);
    Damping.ClockStartsWithFirstEvent(p, xs[..n]);
    var s := State(Taught(cfg, m, evs[..n]), Damping.Run(p, xs[..n]));
    assert LearnedFrom(s, cfg, m, evs[n]) == Taught(cfg, m, evs);
    assert xs[n] == ScoredBy(Taught(cfg, m, evs), cfg, m, evs[n].input);
    InputOfScored(Taught(cfg, m, evs), cfg, m, evs[n].input);
  }

  lemma InputOfScored(l: Learned, cfg: Config, m: Measures, e: Input)
    ensures ScoredBy(l, cfg, m, e).input == e
  {
  }

  /**
   The engine panics in a run exactly if no history is configured and some event comes in a later bucket
   than the first.
   */
  lemma {:induction false} EnginePanicsExactlyWhen(cfg: Config, m: Measures, skipped: bool, evs: seq<Event>)
    ensures Run(cfg, m, skipped, evs) == None <==>
              && cfg.historyBuckets == 0
              && exists k :: 0 <= k < |evs| && BucketOf(cfg, evs[k].input.now) > BucketOf(cfg, evs[0].input.now)
  {
    EngineIsScoringThenDamping(cfg, m, skipped, evs);
  }

  /** Concrete case: no history configured, and two events in different buckets. */
  lemma {:induction false} EmptyHistoryPanics(cfg: Config, m: Measures, skipped: bool, a: Event, b: Event)
    requires cfg.historyBuckets == 0 && BucketOf(cfg, a.input.now) < BucketOf(cfg, b.input.now)
    ensures Run(cfg, m, skipped, [a]).Some? && Run(cfg, m, skipped, [a, b]) == None
  {
    EngineIsScoringThenDamping(cfg, m, skipped, [a]);
    EngineIsScoringThenDamping(cfg, m, skipped, [a, b]);
    assert [a, b][1] == b;
  }

  // ------------------------------------------------ learning is independent of damping

  /** The configurations differ at most in the learning phase and the cooldown. */
  predicate SameButDamping(p: Config, q: Config) {
    p.(learningMinutes := 0, cooldownSeconds := 0) == q.(learningMinutes := 0, cooldownSeconds := 0)
  }

  lemma OneLessonIgnoresDamping(p: Config, q: Config, m: Measures, l: Learned, first: bool, e: Event)
    requires SameButDamping(p, q)
    ensures Learn(l, p, m, first, e.input, e.victim) == Learn(l, q, m, first, e.input, e.victim)
  {
    assert BucketUs(p) == BucketUs(q) && RateLimits(p) == RateLimits(q) && WindowLimits(p) == WindowLimits(q);
    var b, c := Begun(l, p, first, e.input.now), Begun(l, q, first, e.input.now);
    assert b == c;
    var r, s := RollEntropy(b, p, m, e.input.now), RollEntropy(c, q, m, e.input.now);
    assert r == s;
  }

  lemma CombiningIgnoresDamping(p: Config, q: Config, rateZ: real, surprisal: real, entropyZ: real, share: real)
    requires SameButDamping(p, q)
    ensures Combine(p, rateZ, surprisal, entropyZ, share) == Combine(q, rateZ, surprisal, entropyZ, share)
  {
    var z := if rateZ < 0.0 then 0.0 else rateZ;
    assert Normalize(z, p.rateReference) == Normalize(z, q.rateReference);
    assert Normalize(surprisal, p.surprisalReference) == Normalize(surprisal, q.surprisalReference);
    assert Normalize(Abs(entropyZ), p.entropyReference) == Normalize(Abs(entropyZ), q.entropyReference);
    assert p.weightRate == q.weightRate && p.weightSurprisal == q.weightSurprisal && p.weightEntropy == q.weightEntropy;
  }

  lemma OneScoreIgnoresDamping(p: Config, q: Config, m: Measures, l: Learned, e: Input)
    requires SameButDamping(p, q)
    ensures ScoredBy(l, p, m, e) == ScoredBy(l, q, m, e)
  {
    CombiningIgnoresDamping(p, q, RateScore(l, m, e), SurprisalOf(l, m, e), EntropyScore(l, m),
                            ShareOf(Count(l, e.id), |l.window.entries|));
  }

  lemma {:induction false} ScoresIgnoreDamping(p: Config, q: Config, m: Measures, evs: seq<Event>)
    requires SameButDamping(p, q)
    ensures Taught(p, m, evs) == Taught(q, m, evs) && Scores(p, m, evs) == Scores(q, m, evs)
  {
    if evs == [] {
    } else {
      var n := |evs| - 1;
      ScoresIgnoreDamping(p, q, m, evs[..n]);
      OneLessonIgnoresDamping(p, q, m, Taught(p, m, evs[..n]), n == 0, evs[n]);
      OneScoreIgnoresDamping(p, q, m, Taught(p, m, evs), evs[n].input);
    }
  }

  lemma OneLevelIgnoresDamping(p: Config, q: Config, previous: Level, score: real)
    requires SameButDamping(p, q)
    ensures NextLevel(p, previous, score) == NextLevel(q, previous, score)
  {
    if previous != Normal {
      assert Threshold(p, previous) == Threshold(q, previous) && p.exitFactor == q.exitFactor;
      assert ExitThreshold(p, previous) == ExitThreshold(q, previous);
    }
  }

  lemma {:induction false} LevelsIgnoreDamping(p: Damping.Setup, q: Damping.Setup, xs: seq<Scored>, id: nat)
    requires SameButDamping(p.cfg, q.cfg)
    ensures Damping.Of(p, xs, id).level == Damping.Of(q, xs, id).level
    ensures xs != [] ==> Damping.LastLevel(p, xs) == Damping.LastLevel(q, xs)
  {
    if xs == [] {
    } else {
      var n := |xs| - 1;
      var e := xs[n].input;
      LevelsIgnoreDamping(p, q, xs[..n], id);
      LevelsIgnoreDamping(p, q, xs[..n], e.id);
      OneLevelIgnoresDamping(p.cfg, q.cfg, Damping.Of(p, xs[..n], e.id).level, Damping.LastScore(xs));
      Damping.LastStep(p, xs, e.id);
      Damping.LastStep(q, xs, e.id);
      Damping.LastStep(p, xs, id);
      Damping.LastStep(q, xs, id);
    }
  }

  /**
   Two engines that differ only in learning phase, cooldown and whether the learning phase was
   skipped panic on the same runs, know the same after every other run, and give every event the
   same score and level, provided that both break ties alike: with each event, both rate trackers
   give up the same template.
   */
  lemma {:induction false} DampingNeverAffectsLearning(
      p: Config, q: Config, m: Measures, pSkipped: bool, qSkipped: bool, evs: seq<Event>, id: nat)
    requires SameButDamping(p, q)
    ensures var s, t := Run(p, m, pSkipped, evs), Run(q, m, qSkipped, evs);
            && (s.None? <==> t.None?)
            && (s.Some? && t.Some? ==>
                  && s.value.learned == t.value.learned
                  && StateOf(s.value.reporting.states, id).level == StateOf(t.value.reporting.states, id).level)
    ensures Scores(p, m, evs) == Scores(q, m, evs)
  {
    EngineIsScoringThenDamping(p, m, pSkipped, evs);
    EngineIsScoringThenDamping(q, m, qSkipped, evs);
    ScoresIgnoreDamping(p, q, m, evs);
    LevelsIgnoreDamping(Damping.Setup(p, pSkipped), Damping.Setup(q, qSkipped), Scores(p, m, evs), id);
    assert forall now :: BucketOf(p, now) == BucketOf(q, now);
    hide BucketOf, Taught, Scores, Run;
    assert Panics(p, evs) <==> Panics(q, evs);
  }

  // ------------------------------------------------ what the engine feeds its parts

  function WindowEntries(evs: seq<Event>): seq<Window.Entry> {
    seq(|evs|, i requires 0 <= i < |evs| => Window.Entry(evs[i].input.now, evs[i].input.id))
  }

  function RateEvents(evs: seq<Event>): seq<Rate.Event> {
    seq(|evs|, i requires 0 <= i < |evs| => Rate.Event(evs[i].input.now, evs[i].input.id, evs[i].victim))
  }

  /**
   Unless the engine has panicked, its window and its rate tracker have seen every event of the run
   once, in order.
   */
  lemma {:induction false} PartsSeeEveryEvent(cfg: Config, m: Measures, skipped: bool, evs: seq<Event>)
    ensures var s := Run(cfg, m, skipped, evs);
            s.Some? ==>
              && s.value.learned.window == Window.Run(WindowLimits(cfg), WindowEntries(evs))
              && s.value.learned.rates == RateRuns.Run(RateLimits(cfg), RateEvents(evs))
  {
    EngineIsScoringThenDamping(cfg, m, skipped, evs);
    hide Run, Taught;
    WindowSeesEveryEvent(cfg, m, evs);
    RatesSeeEveryEvent(cfg, m, evs);
  }

  lemma {:induction false} WindowSeesEveryEvent(cfg: Config, m: Measures, evs: seq<Event>)
    ensures Taught(cfg, m, evs).window == Window.Run(WindowLimits(cfg), WindowEntries(evs))
  {
    hide Window.Step, Rate.Step, RollEntropy;
    if evs == [] {
    } else {
      var n, xs := |evs| - 1, WindowEntries(evs);
      WindowSeesEveryEvent(cfg, m, evs[..n]);
      assert xs[..n] == WindowEntries(evs[..n]);
      var before := Taught(cfg, m, evs[..n]);
      LearningPushesOnce(before, cfg, m, n == 0, evs[n]);
      OnePush(before.window, Taught(cfg, m, evs).window, WindowLimits(cfg), xs);
    }
  }

  lemma {:induction false} RatesSeeEveryEvent(cfg: Config, m: Measures, evs: seq<Event>)
    ensures Taught(cfg, m, evs).rates == RateRuns.Run(RateLimits(cfg), RateEvents(evs))
  {
    hide Window.Step, Rate.Step, RollEntropy;
    if evs == [] {
    } else {
      var n, xs := |evs| - 1, RateEvents(evs);
      RatesSeeEveryEvent(cfg, m, evs[..n]);
      assert xs[..n] == RateEvents(evs[..n]);
      var before := Taught(cfg, m, evs[..n]);
      LearningPushesOnce(before, cfg, m, n == 0, evs[n]);
      OneCount(before.rates, Taught(cfg, m, evs).rates, RateLimits(cfg), xs);
    }
  }

  /** Every template the rate tracker gave up was one it may give up, as each single event guarantees. */
  ghost predicate PermittedRun(cfg: Config, m: Measures, skipped: bool, evs: seq<Event>) {
    evs == [] ||
    (var before, e := evs[..|evs| - 1], evs[|evs| - 1];
     var s := Run(cfg, m, skipped, before);
     && PermittedRun(cfg, m, skipped, before)
     && (s.Some? ==> PermittedVictim(s.value.learned, cfg, e.input, e.victim)))
  }

  lemma {:induction false} RatesRunIsValid(cfg: Config, m: Measures, skipped: bool, evs: seq<Event>)
    requires PermittedRun(cfg, m, skipped, evs) && Run(cfg, m, skipped, evs).Some?
    ensures RateRuns.ValidRun(RateLimits(cfg), RateEvents(evs))
  {
    hide Step, Faults, Rate.ValidVictim, Rate.Advance, RateRuns.Run;
    if evs == [] {
    } else {
      var n, xs := |evs| - 1, RateEvents(evs);
      RatesRunIsValid(cfg, m, skipped, evs[..n]);
      PartsSeeEveryEvent(cfg, m, skipped, evs[..n]);
      assert xs[..n] == RateEvents(evs[..n]);
    }
  }

  /**
   Unless the engine has panicked, it tracks no more templates than configured, and under the
   conditions of the rate tracker each history it scores from equals the log of the run.
   */
  lemma {:induction false} EngineHistoriesReflectTheLog(cfg: Config, m: Measures, skipped: bool, evs: seq<Event>)
    requires PermittedRun(cfg, m, skipped, evs)
    ensures
      var s, c, xs := Run(cfg, m, skipped, evs), RateLimits(cfg), RateEvents(evs);
      && (s.Some? ==> |s.value.learned.rates.rates| <= c.maxTemplates)
      && (s.Some? && evs != [] && c.idleBuckets >= c.historyLen && RateRuns.Undisturbed(c, xs) ==>
            var rates := s.value.learned.rates;
            Rate.Window(rates, c) <= rates.current && RateRuns.Reflects(rates, xs, c))
  {
    hide Run, RateRuns.Run, RateRuns.Reflects, RateRuns.Undisturbed;
    var s, c, xs := Run(cfg, m, skipped, evs), RateLimits(cfg), RateEvents(evs);
    if s.Some? {
      RatesRunIsValid(cfg, m, skipped, evs);
      PartsSeeEveryEvent(cfg, m, skipped, evs);
      RateRuns.TrackedIsBounded(c, xs);
      if evs != [] && c.idleBuckets >= c.historyLen && RateRuns.Undisturbed(c, xs) {
        RateRuns.HistoriesReflectTheLog(c, xs);
      }
    }
  }

  lemma {:induction false} OnePush(before: Window.State, after: Window.State, l: Window.Limits, xs: seq<Window.Entry>)
    requires xs != [] && before == Window.Run(l, xs[..|xs| - 1])
    requires after == Window.Step(before, l, xs[|xs| - 1])
    ensures after == Window.Run(l, xs)
  {
  }

  lemma {:induction false} OneCount(before: Rate.State, after: Rate.State, c: Rate.RateConfig, xs: seq<Rate.Event>)
    requires c.Valid() && xs != [] && before == RateRuns.Run(c, xs[..|xs| - 1])
    requires after == Rate.Step(before, c, xs[|xs| - 1])
    ensures after == RateRuns.Run(c, xs)
  {
  }

  lemma LearningPushesOnce(l: Learned, cfg: Config, m: Measures, first: bool, e: Event)
    ensures var after := Learn(l, cfg, m, first, e.input, e.victim);
            && after.window == Window.Step(l.window, WindowLimits(cfg), Window.Entry(e.input.now, e.input.id))
            && after.rates == Rate.Step(l.rates, RateLimits(cfg), Rate.Event(e.input.now, e.input.id, e.victim))
            && after.seen == l.seen + [e.input]
  {
  }

  /** Unless the engine has panicked, its entropy history is within the bound. */
  lemma {:induction false} EntropyHistoryIsBounded(cfg: Config, m: Measures, skipped: bool, evs: seq<Event>)
    ensures var s := Run(cfg, m, skipped, evs);
            s.Some? ==> |s.value.learned.entropyHistory| <= cfg.historyBuckets
  {
    EngineIsScoringThenDamping(cfg, m, skipped, evs);
    if cfg.historyBuckets > 0 {
      PositiveHistoryIsBounded(cfg, m, evs);
    } else if !Panics(cfg, evs) {
      NothingArchivedYet(cfg, m, evs);
    }
  }

  lemma {:induction false} PositiveHistoryIsBounded(cfg: Config, m: Measures, evs: seq<Event>)
    requires cfg.historyBuckets > 0
    ensures |Taught(cfg, m, evs).entropyHistory| <= cfg.historyBuckets
  {
    if evs == [] {
    } else {
      PositiveHistoryIsBounded(cfg, m, evs[..|evs| - 1]);
    }
  }
}
