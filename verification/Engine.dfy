/**
 The analysis engine: it learns from every event, scores it, and decides with hysteresis, learning
 phase and cooldown whether to report it.

 The sliding window and the rate tracker are those of their own modules. Logarithms, z-scores and
 the long-term baselines are functions the engine is given; the baselines may depend on
 everything seen so far.
 */
module Engine {
  import opened Common
  import Rate
  import Window

  datatype Level = Normal | Info | Warn | Critical

  function Rank(l: Level): nat {
    match l case Normal => 0 case Info => 1 case Warn => 2 case Critical => 3
  }

  function Higher(a: Level, b: Level): Level {
    if Rank(a) >= Rank(b) then a else b
  }

  datatype Config = Config(
    windowSeconds: nat, bucketSeconds: nat, historyBuckets: nat, maxWindowEvents: nat, idleBuckets: nat,
    maxTemplates: nat, learningMinutes: nat, cooldownSeconds: nat,
    weightRate: real, weightSurprisal: real, weightEntropy: real,
    rateReference: real, surprisalReference: real, entropyReference: real,
    infoThreshold: real, warnThreshold: real, criticalThreshold: real, exitFactor: real)

  /** `unit` is the key of the unit the event belongs to. */
  datatype Input = Input(now: nat, id: nat, unit: nat)

  datatype Measures = Measures(
    entropy: seq<Window.Entry> -> real,
    entropyZ: (real, seq<real>) -> real,
    rateZ: (seq<nat>, nat) -> real,
    windowSurprisal: (nat, nat, nat) -> real,
    baselineRate: (seq<Input>, Input) -> Option<real>,
    baselineSurprisal: (seq<Input>, Input) -> Option<real>)

  /** Everything that is learned from events. */
  datatype Learned = Learned(
    window: Window.State, rates: Rate.State, seen: seq<Input>, entropyHistory: seq<real>, entropyBucket: nat)

  /** Reporting state of one template. */
  datatype TemplateState = TemplateState(level: Level, lastEmitted: Option<nat>, lastLevel: Level, pending: nat)

  const FRESH: TemplateState := TemplateState(Normal, None, Normal, 0)

  datatype Stats = Stats(processed: nat, emitted: nat, suppressed: nat, suppressedLearning: nat)

  /** Everything that decides whether an anomalous event is reported. */
  datatype Reporting = Reporting(
    states: map<nat, TemplateState>, firstEvent: Option<nat>, skipped: bool, stats: Stats)

  datatype State = State(learned: Learned, reporting: Reporting)

  datatype Breakdown = Breakdown(
    rateZ: real, surprisal: real, entropyZ: real,
    rateComponent: real, surprisalComponent: real, entropyComponent: real, combined: real)

  /** An event with its score. */
  datatype Scored = Scored(input: Input, breakdown: Breakdown)

  datatype Anomaly = Anomaly(now: nat, id: nat, unit: nat, level: Level, breakdown: Breakdown, suppressed: nat)

  // ------------------------------------------------ scoring

  function Clamp01(x: real): real {
    if x < 0.0 then 0.0 else if x > 1.0 then 1.0 else x
  }

  function Normalize(value: real, reference: real): (r: real)
    ensures 0.0 <= r <= 1.0
    ensures reference > 0.0 ==> (r == 1.0 <==> value >= reference) && (r == 0.0 <==> value <= 0.0)
  {
    if reference <= 0.0 then 0.0
    else
      Scaling(value, reference);
      Clamp01(value / reference)
  }

  lemma Scaling(value: real, reference: real)
    requires reference > 0.0
    ensures value / reference >= 1.0 <==> value >= reference
    ensures value / reference <= 0.0 <==> value <= 0.0
  {
    var q := value / reference;
    assert q * reference == value;
  }

  datatype Signal = Signal(weight: real, component: real)

  function Strength(s: Signal): (r: real)
    ensures 0.0 <= r <= 1.0
  {
    ProductInRange(Clamp01(s.weight), Clamp01(s.component));
    Clamp01(s.weight) * Clamp01(s.component)
  }

  lemma ProductInRange(a: real, b: real)
    requires 0.0 <= a <= 1.0 && 0.0 <= b <= 1.0
    ensures 0.0 <= a * b <= 1.0 && a * b <= a && a * b <= b
  {
  }

  function Strengths(signals: seq<Signal>): (rs: seq<real>)
    ensures |rs| == |signals| && forall i :: 0 <= i < |rs| ==> rs[i] == Strength(signals[i])
  {
    if signals == [] then [] else Strengths(signals[..|signals| - 1]) + [Strength(signals[|signals| - 1])]
  }

  /** Product of what every strength leaves over. */
  function Leftover(rs: seq<real>): real {
    if rs == [] then 1.0 else Leftover(rs[..|rs| - 1]) * (1.0 - rs[|rs| - 1])
  }

  function NoisyOr(signals: seq<Signal>): real {
    Clamp01(1.0 - Leftover(Strengths(signals)))
  }

  method Product(rs: seq<real>) returns (p: real)
    ensures p == Leftover(rs)
  {
    p := 1.0;
    for i := 0 to |rs|
      invariant p == Leftover(rs[..i])
    {
      assert rs[..i + 1][..i] == rs[..i];
      p := p * (1.0 - rs[i]);
    }
    assert rs[..|rs|] == rs;
  }

  method CombineSignals(signals: seq<Signal>) returns (r: real)
    ensures r == NoisyOr(signals)
  {
    var complement := Product(Strengths(signals));
    r := Clamp01(1.0 - complement);
  }

  function Count(l: Learned, id: nat): nat {
    Window.Occurrences(l.window.entries, id)
  }

  function DistinctIds(entries: seq<Window.Entry>): set<nat> {
    set i | 0 <= i < |entries| :: entries[i].id
  }

  function ShareOf(count: nat, total: nat): real {
    if total == 0 then 0.0 else count as real / total as real
  }

  function RateScore(l: Learned, m: Measures, e: Input): real {
    var baseline := m.baselineRate(l.seen, e);
    if baseline.Some? then baseline.value
    else if e.id in l.rates.rates then m.rateZ(l.rates.rates[e.id].history, l.rates.rates[e.id].current)
    else 0.0
  }

  function SurprisalOf(l: Learned, m: Measures, e: Input): real {
    var baseline := m.baselineSurprisal(l.seen, e);
    if baseline.Some? then baseline.value
    else m.windowSurprisal(Count(l, e.id), |l.window.entries|, |DistinctIds(l.window.entries)|)
  }

  function EntropyScore(l: Learned, m: Measures): real {
    m.entropyZ(m.entropy(l.window.entries), l.entropyHistory)
  }

  function Assessed(l: Learned, cfg: Config, m: Measures, e: Input): Breakdown {
    Combine(cfg, RateScore(l, m, e), SurprisalOf(l, m, e), EntropyScore(l, m),
        ShareOf(Count(l, e.id), |l.window.entries|))
  }

  function Combine(cfg: Config, rateZ: real, surprisal: real, entropyZ: real, share: real): Breakdown {
    var rate := Normalize(if rateZ < 0.0 then 0.0 else rateZ, cfg.rateReference);
    var novelty := Normalize(surprisal, cfg.surprisalReference);
    var storm := Normalize(Abs(entropyZ), cfg.entropyReference) * share;
    Breakdown(rateZ, surprisal, entropyZ, rate, novelty, storm,
              Clamp01(NoisyOr([Signal(cfg.weightRate, rate), Signal(cfg.weightSurprisal, novelty),
                               Signal(cfg.weightEntropy, storm)])))
  }

  // ------------------------------------------------ learning

  function BucketUs(cfg: Config): (b: nat)
    ensures b > 0
  {
    SatMul(Max(cfg.bucketSeconds, 1), 1_000_000)
  }

  function BucketIn(now: nat, size: nat): nat
    requires size > 0
  {
    now / size
  }

  function BucketOf(cfg: Config, now: nat): nat {
    BucketIn(now, BucketUs(cfg))
  }

  function WindowLimits(cfg: Config): Window.Limits {
    Window.Configure(cfg.windowSeconds, cfg.maxWindowEvents)
  }

  function RateLimits(cfg: Config): (c: Rate.RateConfig)
    ensures c.Valid()
  {
    Rate.Configure(cfg.bucketSeconds, cfg.historyBuckets, cfg.maxTemplates, cfg.idleBuckets)
  }

  const UNTAUGHT: Learned := Learned(Window.EMPTY, Rate.EMPTY, [], [], 0)

  function Pushed(history: seq<real>, v: real, bound: nat): seq<real> {
    (if |history| >= bound && history != [] then history[1..] else history) + [v]
  }

  /**
   A configured history of zero buckets makes the code remove from an empty vector when it archives
   the first entropy, which panics.
   */
  predicate RollFaults(l: Learned, cfg: Config, now: nat) {
    BucketOf(cfg, now) > l.entropyBucket && l.window.entries != []
    && |l.entropyHistory| >= cfg.historyBuckets && l.entropyHistory == []
  }

  /** The entropy of the window is archived when a bucket ends, before the event is taken in; unless that faults. */
  function RollEntropy(l: Learned, cfg: Config, m: Measures, now: nat): Learned {
    var bucket := BucketOf(cfg, now);
    if bucket <= l.entropyBucket then l
    else l.(entropyBucket := bucket,
            entropyHistory := if l.window.entries == [] then l.entropyHistory
                              else Pushed(l.entropyHistory, m.entropy(l.window.entries), cfg.historyBuckets))
  }

  /** The entropy clock starts at the first event. */
  function Begun(l: Learned, cfg: Config, first: bool, now: nat): Learned {
    if first then l.(entropyBucket := BucketOf(cfg, now)) else l
  }

  /** `victim` is the template the rate tracker gives up for the event, if any. */
  function TakenIn(l: Learned, cfg: Config, e: Input, victim: Option<nat>): Learned {
    l.(rates := Rate.Step(l.rates, RateLimits(cfg), Rate.Event(e.now, e.id, victim)),
       window := Window.Step(l.window, WindowLimits(cfg), Window.Entry(e.now, e.id)),
       seen := l.seen + [e])
  }

  /** The rate tracker gives up only a template it may give up: none, or at the bound one of the longest inactive. */
  ghost predicate PermittedVictim(l: Learned, cfg: Config, e: Input, victim: Option<nat>) {
    var c := RateLimits(cfg);
    Rate.ValidVictim(Rate.Advance(l.rates, c, Rate.BucketOf(c, e.now)).rates, c, e.id, victim)
  }

  function Learn(l: Learned, cfg: Config, m: Measures, first: bool, e: Input, victim: Option<nat>): Learned {
    TakenIn(RollEntropy(Begun(l, cfg, first, e.now), cfg, m, e.now), cfg, e, victim)
  }

  // ------------------------------------------------ levels and damping

  function Threshold(cfg: Config, l: Level): real
    requires l != Normal
  {
    match l case Info => cfg.infoThreshold case Warn => cfg.warnThreshold case Critical => cfg.criticalThreshold
  }

  function ExitThreshold(cfg: Config, l: Level): real
    requires l != Normal
  {
    Threshold(cfg, l) * Clamp01(cfg.exitFactor)
  }

  function RawLevel(cfg: Config, score: real): Level {
    if score >= cfg.criticalThreshold then Critical
    else if score >= cfg.warnThreshold then Warn
    else if score >= cfg.infoThreshold then Info
    else Normal
  }

  function NextLevel(cfg: Config, previous: Level, score: real): Level {
    Higher(RawLevel(cfg, score),
           if previous != Normal && score >= ExitThreshold(cfg, previous) then previous else Normal)
  }

  function StateOf(states: map<nat, TemplateState>, id: nat): TemplateState {
    if id in states then states[id] else FRESH
  }

  function LearningUs(cfg: Config): nat {
    SatMul(SatMul(cfg.learningMinutes, 60), 1_000_000)
  }

  function CooldownUs(cfg: Config): nat {
    SatMul(cfg.cooldownSeconds, 1_000_000)
  }

  predicate InLearning(cfg: Config, firstEvent: Option<nat>, skipped: bool, now: nat) {
    !skipped && (firstEvent.Some? ==> SatSub(now, firstEvent.value) < LearningUs(cfg))
  }

  predicate InCooldown(cfg: Config, t: TemplateState, now: nat, level: Level) {
    t.lastEmitted.Some? && Rank(level) <= Rank(t.lastLevel) && SatSub(now, t.lastEmitted.value) < CooldownUs(cfg)
  }

  datatype Verdict = Quiet | Learning | Cooling | Emit

  function Judge(cfg: Config, firstEvent: Option<nat>, skipped: bool, t: TemplateState, now: nat,
      level: Level): Verdict {
    if level == Normal then Quiet
    else if InLearning(cfg, firstEvent, skipped, now) then Learning
    else if InCooldown(cfg, t, now, level) then Cooling
    else Emit
  }

  function Damped(t: TemplateState, v: Verdict, now: nat, level: Level): TemplateState {
    match v
    case Cooling => t.(pending := t.pending + 1)
    case Emit => t.(lastEmitted := Some(now), lastLevel := level, pending := 0)
    case _ => t
  }

  function Tallied(s: Stats, v: Verdict): Stats {
    match v
    case Quiet => s
    case Learning => s.(suppressedLearning := s.suppressedLearning + 1)
    case Cooling => s.(suppressed := s.suppressed + 1)
    case Emit => s.(emitted := s.emitted + 1)
  }

  // ------------------------------------------------ one event

  function Idle(skipped: bool): Reporting {
    Reporting(map[], None, skipped, Stats(0, 0, 0, 0))
  }

  /** The event is counted, and the first one starts the learning phase. */
  function Noted(r: Reporting, now: nat): Reporting {
    r.(firstEvent := if r.firstEvent.None? then Some(now) else r.firstEvent,
       stats := r.stats.(processed := r.stats.processed + 1))
  }

  function LevelOf(r: Reporting, cfg: Config, x: Scored): Level {
    NextLevel(cfg, StateOf(r.states, x.input.id).level, x.breakdown.combined)
  }

  function VerdictOf(r: Reporting, cfg: Config, x: Scored): Verdict {
    Judge(cfg, r.firstEvent, r.skipped, StateOf(r.states, x.input.id), x.input.now, LevelOf(r, cfg, x))
  }

  /** What is reported on a noted event. */
  function Reported(r: Reporting, cfg: Config, x: Scored): Option<Anomaly> {
    if VerdictOf(r, cfg, x) != Emit then None
    else Some(Anomaly(x.input.now, x.input.id, x.input.unit, LevelOf(r, cfg, x), x.breakdown,
                      StateOf(r.states, x.input.id).pending))
  }

  function Decided(r: Reporting, cfg: Config, x: Scored): Reporting {
    var level, v := LevelOf(r, cfg, x), VerdictOf(r, cfg, x);
    r.(states := r.states[x.input.id := Damped(StateOf(r.states, x.input.id).(level := level), v, x.input.now, level)],
       stats := Tallied(r.stats, v))
  }

  /** `victim` is the template the rate tracker gives up for the event, if any. */
  datatype Event = Event(input: Input, victim: Option<nat>)

  /** The engine panics on an event that arrives at the given time. */
  predicate Faults(s: State, cfg: Config, now: nat) {
    RollFaults(Begun(s.learned, cfg, s.reporting.firstEvent.None?, now), cfg, now)
  }

  function LearnedFrom(s: State, cfg: Config, m: Measures, e: Event): Learned {
    Learn(s.learned, cfg, m, s.reporting.firstEvent.None?, e.input, e.victim)
  }

  function ScoredBy(l: Learned, cfg: Config, m: Measures, e: Input): Scored {
    Scored(e, Assessed(l, cfg, m, e))
  }

  /** The engine after one event on which it does not panic. */
  function Step(s: State, cfg: Config, m: Measures, e: Event): State {
    var l := LearnedFrom(s, cfg, m, e);
    State(l, Decided(Noted(s.reporting, e.input.now), cfg, ScoredBy(l, cfg, m, e.input)))
  }

  /** What the engine reports on the event. */
  function Report(s: State, cfg: Config, m: Measures, e: Event): Option<Anomaly> {
    Reported(Noted(s.reporting, e.input.now), cfg, ScoredBy(LearnedFrom(s, cfg, m, e), cfg, m, e.input))
  }

  class AnalysisEngine {
    const cfg: Config
    const m: Measures
    const window: Window.SlidingWindow
    const rates: Rate.RateTracker
    var seen: seq<Input>
    var entropyHistory: seq<real>
    var entropyBucket: nat
    var states: map<nat, TemplateState>
    var firstEvent: Option<nat>
    var learningSkipped: bool
    var stats: Stats

    ghost predicate Valid()
      reads this, window, rates
    {
      && window.Valid() && window.limits == WindowLimits(cfg)
      && rates.Valid() && rates.cfg == RateLimits(cfg)
    }

    ghost function Knowledge(): Learned
      reads this, window, rates
    {
      Learned(window.View(), rates.View(), seen, entropyHistory, entropyBucket)
    }

    ghost function Status(): Reporting
      reads this
    {
      Reporting(states, firstEvent, learningSkipped, stats)
    }

    ghost function View(): State
      reads this, window, rates
    {
      State(Knowledge(), Status())
    }

    constructor (cfg: Config, m: Measures)
      ensures Valid() && this.cfg == cfg && this.m == m && fresh(window) && fresh(rates)
      ensures View() == State(UNTAUGHT, Idle(false))
    {
      this.cfg, this.m := cfg, m;
      window := new Window.SlidingWindow(cfg.windowSeconds, cfg.maxWindowEvents);
      rates := new Rate.RateTracker(cfg.bucketSeconds, cfg.historyBuckets, cfg.maxTemplates, cfg.idleBuckets);
      seen, entropyHistory, entropyBucket := [], [], 0;
      states, firstEvent, learningSkipped, stats := map[], None, false, Stats(0, 0, 0, 0);
    }

    method SkipLearningPhase()
      requires Valid()
      modifies `learningSkipped
      ensures Valid() && View() == old(View()).(reporting := old(Status()).(skipped := true))
    {
      learningSkipped := true;
    }

    /** `ok` is false where the code panics; nothing has changed then. */
    method RollEntropyBucket(now: nat) returns (ok: bool)
      requires Valid()
      modifies `entropyHistory, `entropyBucket
      ensures Valid() && ok == !RollFaults(old(Knowledge()), cfg, now)
      ensures Knowledge() == if ok then RollEntropy(old(Knowledge()), cfg, m, now) else old(Knowledge())
    {
      var bucket := BucketOf(cfg, now);
      if bucket <= entropyBucket {
        return true;
      }
      if window.entries != [] {
        var entropy := m.entropy(window.entries);
        if |entropyHistory| >= cfg.historyBuckets {
          if entropyHistory == [] {
            return false;
          }
          entropyHistory := entropyHistory[1..];
        }
        entropyHistory := entropyHistory + [entropy];
      }
      entropyBucket := bucket;
      return true;
    }

    /** The score of an event that has been learned. */
    method ComputeBreakdown(e: Input) returns (b: Breakdown)
      requires Valid()
      ensures b == Assessed(Knowledge(), cfg, m, e)
    {
      CountsAgree(window.counts, window.entries, e.id);
      var count := if e.id in window.counts then window.counts[e.id] else 0;
      var baseline := m.baselineRate(seen, e);
      var rateZ := if baseline.Some? then baseline.value
                   else if e.id in rates.rates then m.rateZ(rates.rates[e.id].history, rates.rates[e.id].current)
                   else 0.0;
      var novelty := m.baselineSurprisal(seen, e);
      var surprisal := if novelty.Some? then novelty.value
                       else m.windowSurprisal(count, |window.entries|, |window.counts|);
      var entropyZ := m.entropyZ(m.entropy(window.entries), entropyHistory);
      b := CombineScores(rateZ, surprisal, entropyZ, ShareOf(count, |window.entries|));
    }

    method CombineScores(rateZ: real, surprisal: real, entropyZ: real, share: real) returns (b: Breakdown)
      ensures b == Combine(cfg, rateZ, surprisal, entropyZ, share)
    {
      var rate := Normalize(if rateZ < 0.0 then 0.0 else rateZ, cfg.rateReference);
      var novelty := Normalize(surprisal, cfg.surprisalReference);
      var storm := Normalize(Abs(entropyZ), cfg.entropyReference) * share;
      var combined := CombineSignals([Signal(cfg.weightRate, rate), Signal(cfg.weightSurprisal, novelty),
                                      Signal(cfg.weightEntropy, storm)]);
      return Breakdown(rateZ, surprisal, entropyZ, rate, novelty, storm, Clamp01(combined));
    }

    method LevelWithHysteresis(id: nat, score: real) returns (level: Level)
      requires Valid()
      modifies `states
      ensures Valid() && Knowledge() == old(Knowledge())
      ensures level == NextLevel(cfg, StateOf(old(states), id).level, score)
      ensures states == old(states)[id := StateOf(old(states), id).(level := level)]
    {
      var previous := if id in states then states[id].level else Normal;
      var raw := if score >= cfg.criticalThreshold then Critical
                 else if score >= cfg.warnThreshold then Warn
                 else if score >= cfg.infoThreshold then Info
                 else Normal;
      var held := match previous
        case Critical => if score >= ExitThreshold(cfg, Critical) then Critical else Normal
        case Warn => if score >= ExitThreshold(cfg, Warn) then Warn else Normal
        case Info => if score >= ExitThreshold(cfg, Info) then Info else Normal
        case Normal => Normal;
      level := Higher(raw, held);
      states := states[id := StateOf(states, id).(level := level)];
    }

    /** Hands an event to the rate tracker, the window and the baselines. */
    method TakeIn(e: Input) returns (victim: Option<nat>)
      requires Valid()
      modifies `seen, window, rates
      ensures Valid() && Knowledge() == TakenIn(old(Knowledge()), cfg, e, victim)
      ensures PermittedVictim(old(Knowledge()), cfg, e, victim)
    {
      ghost var w := window.View();
      var sample, count;
      victim, sample, count := rates.Record(e.now, e.id);
      ghost var r := rates.View();
      assert window.View() == w && window.Valid();
      window.Push(e.now, e.id);
      assert rates.View() == r && rates.Valid();
      seen := seen + [e];
    }

    /** Counts an event and learns from it, without judging it. */
    method LearnFrom(e: Input) returns (ok: bool, victim: Option<nat>)
      requires Valid()
      modifies this, window, rates
      ensures Valid()
      ensures ok == !RollFaults(Begun(old(Knowledge()), cfg, old(firstEvent).None?, e.now), cfg, e.now)
      ensures ok ==> Knowledge() == Learn(old(Knowledge()), cfg, m, old(firstEvent).None?, e, victim)
      ensures if ok then PermittedVictim(old(Knowledge()), cfg, e, victim) else victim == None
      ensures Status() == Noted(old(Status()), e.now)
    {
      ghost var before, first := Knowledge(), firstEvent.None?;
      stats := stats.(processed := stats.processed + 1);
      if firstEvent.None? {
        firstEvent := Some(e.now);
        entropyBucket := BucketOf(cfg, e.now);
      }
      assert Knowledge() == Begun(before, cfg, first, e.now);
      victim := None;
      ok := RollEntropyBucket(e.now);
      if ok {
        victim := TakeIn(e);
      }
    }

    /** Decides whether an event of some level is reported, and counts it. */
    method Damp(e: Input, level: Level, breakdown: Breakdown) returns (report: Option<Anomaly>)
      requires Valid() && e.id in states
      modifies `states, `stats
      ensures Valid() && Knowledge() == old(Knowledge())
      ensures var v := Judge(cfg, firstEvent, learningSkipped, old(states[e.id]), e.now, level);
              && states == old(states)[e.id := Damped(old(states[e.id]), v, e.now, level)]
              && stats == Tallied(old(stats), v)
              && report == if v == Emit
                           then Some(Anomaly(e.now, e.id, e.unit, level, breakdown, old(states[e.id]).pending))
                           else None
    {
      report := None;
      var state := states[e.id];
      if level == Normal {
        assert states == states[e.id := state];
        return;
      }
      if InLearning(cfg, firstEvent, learningSkipped, e.now) {
        stats := stats.(suppressedLearning := stats.suppressedLearning + 1);
        assert states == states[e.id := state];
        return;
      }
      if InCooldown(cfg, state, e.now, level) {
        stats := stats.(suppressed := stats.suppressed + 1);
        states := states[e.id := state.(pending := state.pending + 1)];
        return;
      }
      states := states[e.id := state.(lastEmitted := Some(e.now), lastLevel := level, pending := 0)];
      stats := stats.(emitted := stats.emitted + 1);
      report := Some(Anomaly(e.now, e.id, e.unit, level, breakdown, state.pending));
    }

    /** Judges an event that has been learned. */
    method Decide(e: Input) returns (report: Option<Anomaly>)
      requires Valid()
      modifies `states, `stats
      ensures Valid() && Knowledge() == old(Knowledge())
      ensures var x := ScoredBy(old(Knowledge()), cfg, m, e);
              Status() == Decided(old(Status()), cfg, x) && report == Reported(old(Status()), cfg, x)
    {
      var breakdown := ComputeBreakdown(e);
      var level := LevelWithHysteresis(e.id, breakdown.combined);
      report := Damp(e, level, breakdown);
    }

    /** One event; `ok` is false where the code panics, `victim` is the template the rate tracker gave up. */
    method Process(e: Input) returns (ok: bool, report: Option<Anomaly>, victim: Option<nat>)
      requires Valid()
      modifies this, window, rates
      ensures Valid() && ok == !Faults(old(View()), cfg, e.now)
      ensures ok ==> View() == Step(old(View()), cfg, m, Event(e, victim))
      ensures if ok then PermittedVictim(old(Knowledge()), cfg, e, victim) else victim == None
      ensures report == if ok then Report(old(View()), cfg, m, Event(e, victim)) else None
    {
      report := None;
      ok, victim := LearnFrom(e);
      if ok {
        report := Decide(e);
      }
    }
  }

  lemma {:induction false} OccursIffPresent(entries: seq<Window.Entry>, id: nat)
    ensures Window.Occurrences(entries, id) > 0 <==> id in DistinctIds(entries)
  {
    if entries == [] {
    } else {
      var n := |entries| - 1;
      OccursIffPresent(entries[..n], id);
      assert entries == entries[..n] + [entries[n]];
      if id in DistinctIds(entries[..n]) {
        var i :| 0 <= i < n && entries[..n][i].id == id;
        assert entries[i].id == id;
      }
      assert id in DistinctIds(entries) <==> id in DistinctIds(entries[..n]) || entries[n].id == id;
    }
  }

  /** The count table of the window tells how often and how many templates occur. */
  lemma {:induction false} CountsAgree(counts: map<nat, nat>, entries: seq<Window.Entry>, id: nat)
    requires Window.CountsExact(counts, entries)
    ensures (if id in counts then counts[id] else 0) == Window.Occurrences(entries, id)
    ensures |counts| == |DistinctIds(entries)|
  {
    forall j: nat
      ensures j in counts <==> j in DistinctIds(entries)
    {
      OccursIffPresent(entries, j);
    }
    assert counts.Keys == DistinctIds(entries);
    assert |counts| == |counts.Keys|;
  }
}
