/**
 Where the score of an event comes from, over whole runs: which raw values are taken, from what
 part of the past, and how they make up the score.
 */
module EventScores {
  import opened Common
  import opened Engine
  import opened EngineRuns
  import opened Scoring
  import Rate
  import RateRuns
  import Window

  /** The last `n` elements. */
  function End<T>(s: seq<T>, n: nat): seq<T> {
    s[|s| - Min(n, |s|)..]
  }

  // ------------------------------------------------ what the past consists of

  function Inputs(evs: seq<Event>): seq<Input> {
    seq(|evs|, i requires 0 <= i < |evs| => evs[i].input)
  }

  /** The last event comes in a later bucket than all before it. */
  ghost predicate OpensBucket(cfg: Config, evs: seq<Event>)
    requires evs != []
  {
    forall k :: 0 <= k < |evs| - 1 ==> BucketOf(cfg, evs[k].input.now) < BucketOf(cfg, evs[|evs| - 1].input.now)
  }

  /** The entropies of the window at the end of every bucket, as a log without bound. */
  ghost function Archive(cfg: Config, m: Measures, evs: seq<Event>): seq<real> {
    if |evs| <= 1 then []
    else
      var before := evs[..|evs| - 1];
      Archive(cfg, m, before)
      + if OpensBucket(cfg, evs) then [m.entropy(Window.Run(WindowLimits(cfg), WindowEntries(before)).entries)] else []
  }

  lemma {:induction false} TaughtUnfold(cfg: Config, m: Measures, evs: seq<Event>)
    requires evs != []
    ensures var n := |evs| - 1;
            Taught(cfg, m, evs) == Learn(Taught(cfg, m, evs[..n]), cfg, m, n == 0, evs[n].input, evs[n].victim)
  {
  }

  lemma {:induction false} SeenIsEveryInput(cfg: Config, m: Measures, evs: seq<Event>)
    ensures Taught(cfg, m, evs).seen == Inputs(evs)
  {
    hide Learn;
    if evs == [] {
    } else {
      var n := |evs| - 1;
      SeenIsEveryInput(cfg, m, evs[..n]);
      LearningPushesOnce(Taught(cfg, m, evs[..n]), cfg, m, n == 0, evs[n]);
    }
  }

  lemma {:induction false} WindowIsNotEmpty(cfg: Config, m: Measures, evs: seq<Event>)
    ensures evs != [] ==> Taught(cfg, m, evs).window.entries != []
    ensures evs == [] ==> Taught(cfg, m, evs).window == Window.EMPTY
  {
    hide Learn;
    if evs == [] {
    } else {
      var n, e := |evs| - 1, evs[|evs| - 1];
      WindowIsNotEmpty(cfg, m, evs[..n]);
      LearningPushesOnce(Taught(cfg, m, evs[..n]), cfg, m, n == 0, e);
      WindowNeverEmpties(Taught(cfg, m, evs[..n]).window, WindowLimits(cfg), Window.Entry(e.input.now, e.input.id));
    }
  }

  /** What one lesson does to the entropy clock and the entropy history. */
  lemma LearningArchives(l: Learned, cfg: Config, m: Measures, first: bool, e: Event)
    ensures var after, bucket := Learn(l, cfg, m, first, e.input, e.victim), BucketOf(cfg, e.input.now);
            && after.entropyBucket == (if first then bucket else Max(l.entropyBucket, bucket))
            && after.entropyHistory ==
                 if !first && bucket > l.entropyBucket && l.window.entries != []
                 then Pushed(l.entropyHistory, m.entropy(l.window.entries), cfg.historyBuckets)
                 else l.entropyHistory
  {
    hide Window.Step, Rate.Step;
  }

  /** The entropy clock shows the newest bucket of the run. */
  ghost predicate Newest(cfg: Config, evs: seq<Event>, bucket: nat) {
    && (forall k :: 0 <= k < |evs| ==> BucketOf(cfg, evs[k].input.now) <= bucket)
    && (evs != [] ==> exists k :: 0 <= k < |evs| && BucketOf(cfg, evs[k].input.now) == bucket)
  }

  lemma {:induction false} ClockShowsNewest(cfg: Config, m: Measures, evs: seq<Event>)
    ensures Newest(cfg, evs, Taught(cfg, m, evs).entropyBucket)
  {
    hide Learn, BucketOf;
    if evs == [] {
    } else {
      var n := |evs| - 1;
      var front := evs[..n];
      ClockShowsNewest(cfg, m, front);
      LearningArchives(Taught(cfg, m, front), cfg, m, n == 0, evs[n]);
      assert forall k :: 0 <= k < n ==> front[k] == evs[k];
      if n > 0 {
        var k :| 0 <= k < n && BucketOf(cfg, front[k].input.now) == Taught(cfg, m, front).entropyBucket;
        assert BucketOf(cfg, evs[k].input.now) == Taught(cfg, m, front).entropyBucket;
      }
    }
  }

  lemma PushedIsEnd(log: seq<real>, v: real, bound: nat)
    requires bound > 0
    ensures Pushed(End(log, bound), v, bound) == End(log + [v], bound)
  {
  }

  lemma {:induction false} NewBucketOpens(cfg: Config, evs: seq<Event>, bucket: nat)
    requires |evs| > 1 && Newest(cfg, evs[..|evs| - 1], bucket)
    ensures OpensBucket(cfg, evs) <==> BucketOf(cfg, evs[|evs| - 1].input.now) > bucket
  {
    hide BucketOf;
    var n := |evs| - 1;
    assert forall k :: 0 <= k < n ==> evs[..n][k] == evs[k];
    var k :| 0 <= k < n && BucketOf(cfg, evs[..n][k].input.now) == bucket;
    assert BucketOf(cfg, evs[k].input.now) == bucket;
  }

  /** The entropy history is the end of the archive of all bucket ends: in order, complete and as long as allowed. */
  lemma {:induction false} EntropyHistoryIsTheEndOfTheArchive(cfg: Config, m: Measures, evs: seq<Event>)
    requires !Panics(cfg, evs)
    ensures Taught(cfg, m, evs).entropyHistory == End(Archive(cfg, m, evs), cfg.historyBuckets)
  {
    hide Learn, Pushed, BucketOf;
    if cfg.historyBuckets == 0 {
      NothingArchivedYet(cfg, m, evs);
    } else if evs == [] {
    } else {
      var n := |evs| - 1;
      var before := evs[..n];
      PanicsLater(cfg, evs);
      EntropyHistoryIsTheEndOfTheArchive(cfg, m, before);
      LearningArchives(Taught(cfg, m, before), cfg, m, n == 0, evs[n]);
      if n > 0 {
        WindowIsNotEmpty(cfg, m, before);
        ClockShowsNewest(cfg, m, before);
        NewBucketOpens(cfg, evs, Taught(cfg, m, before).entropyBucket);
        WindowSeesEveryEvent(cfg, m, before);
        var entropy := m.entropy(Taught(cfg, m, before).window.entries);
        PushedIsEnd(Archive(cfg, m, before), entropy, cfg.historyBuckets);
        assert Archive(cfg, m, before) + [] == Archive(cfg, m, before);
      } else {
        assert before == [];
      }
    }
  }

  // ------------------------------------------------ the raw values

  /** Number of different templates among the entries. */
  ghost function Templates(entries: seq<Window.Entry>): nat {
    |set e | e in entries :: e.id|
  }

  /** Positions of the window that belong to the template. */
  ghost function Positions(entries: seq<Window.Entry>, id: nat): set<nat> {
    set i | 0 <= i < |entries| && entries[i].id == id
  }

  lemma {:induction false} OccurrencesCount(entries: seq<Window.Entry>, id: nat)
    ensures Window.Occurrences(entries, id) == |Positions(entries, id)|
  {
    if entries == [] {
    } else {
      var n := |entries| - 1;
      OccurrencesCount(entries[..n], id);
      assert Positions(entries, id)
          == Positions(entries[..n], id) + if entries[n].id == id then {n} else {};
    }
  }

  lemma {:induction false} LastScoreOf(cfg: Config, m: Measures, evs: seq<Event>)
    requires evs != []
    ensures var n := |evs| - 1;
            Scores(cfg, m, evs)[n] == Scored(evs[n].input, Assessed(Taught(cfg, m, evs), cfg, m, evs[n].input))
  {
  }

  lemma {:induction false} OwnTemplateIsTracked(cfg: Config, m: Measures, evs: seq<Event>)
    requires evs != []
    ensures evs[|evs| - 1].input.id in Taught(cfg, m, evs).rates.rates
  {
    hide Window.Step, RollEntropy;
    var n := |evs| - 1;
    TaughtUnfold(cfg, m, evs);
    LearningPushesOnce(Taught(cfg, m, evs[..n]), cfg, m, n == 0, evs[n]);
  }

  /**
   The rate of an event is the answer of the long-term baseline, computed from all events up to this
   one, if it has an answer, whatever the short-term histories hold; otherwise the score of the
   template's own history and running count after all events.
   */
  lemma {:induction false} RateComesFrom(cfg: Config, m: Measures, evs: seq<Event>)
    requires evs != []
    ensures
      var x, e := Scores(cfg, m, evs)[|evs| - 1], evs[|evs| - 1].input;
      var rates := RateRuns.Run(RateLimits(cfg), RateEvents(evs)).rates;
      var baseline := m.baselineRate(Inputs(evs), e);
      && x.input == e
      && (baseline.Some? ==> x.breakdown.rateZ == baseline.value)
      && (baseline.None? ==> e.id in rates && x.breakdown.rateZ == m.rateZ(rates[e.id].history, rates[e.id].current))
  {
    hide Taught, RateRuns.Run;
    LastScoreOf(cfg, m, evs);
    SeenIsEveryInput(cfg, m, evs);
    RatesSeeEveryEvent(cfg, m, evs);
    OwnTemplateIsTracked(cfg, m, evs);
  }

  /**
   Its surprisal is the answer of the unit's profile, if there is one; otherwise it is measured by how
   often the template stands in the window, how long the window is and how many templates it holds.
   */
  lemma {:induction false} SurprisalComesFrom(cfg: Config, m: Measures, evs: seq<Event>)
    requires evs != []
    ensures
      var x, e := Scores(cfg, m, evs)[|evs| - 1], evs[|evs| - 1].input;
      var entries := Window.Run(WindowLimits(cfg), WindowEntries(evs)).entries;
      var baseline := m.baselineSurprisal(Inputs(evs), e);
      && (baseline.Some? ==> x.breakdown.surprisal == baseline.value)
      && (baseline.None? ==>
            x.breakdown.surprisal == m.windowSurprisal(|Positions(entries, e.id)|, |entries|, Templates(entries)))
  {
    hide Taught, Window.Run;
    var entries := Taught(cfg, m, evs).window.entries;
    LastScoreOf(cfg, m, evs);
    SeenIsEveryInput(cfg, m, evs);
    WindowSeesEveryEvent(cfg, m, evs);
    OccurrencesCount(entries, evs[|evs| - 1].input.id);
    assert DistinctIds(entries) == set e | e in entries :: e.id;
  }

  /** Its entropy score compares the window with the ends of the last buckets, as many as configured. */
  lemma {:induction false} EntropyComesFrom(cfg: Config, m: Measures, evs: seq<Event>)
    requires evs != [] && !Panics(cfg, evs)
    ensures
      var entries := Window.Run(WindowLimits(cfg), WindowEntries(evs)).entries;
      Scores(cfg, m, evs)[|evs| - 1].breakdown.entropyZ
      == m.entropyZ(m.entropy(entries), End(Archive(cfg, m, evs), cfg.historyBuckets))
  {
    hide Taught, Window.Run, Archive;
    LastScoreOf(cfg, m, evs);
    WindowSeesEveryEvent(cfg, m, evs);
    EntropyHistoryIsTheEndOfTheArchive(cfg, m, evs);
  }

  // ------------------------------------------------ from raw values to the score

  /** `c` is the value in units of its reference, cut to the range from zero to one; without a reference it is zero. */
  predicate Scaled(c: real, value: real, reference: real) {
    if reference <= 0.0 || value <= 0.0 then c == 0.0
    else if value >= reference then c == 1.0
    else c * reference == value
  }

  predicate IsSize(size: real, x: real) {
    size >= 0.0 && (size == x || size == -x)
  }

  /** `w` is the weight if that is between zero and one, otherwise the nearer of the two. */
  predicate IsWeight(w: real, weight: real) {
    0.0 <= w <= 1.0 && (w < weight ==> w == 1.0) && (w > weight ==> w == 0.0)
  }

  /** The share of the template in the window, by counting. */
  predicate IsShare(share: real, count: nat, total: nat) {
    share * total as real == count as real
  }

  /** The combined score leaves over what the weighted components leave over. */
  ghost predicate Leaves(b: Breakdown, u: real, v: real, w: real) {
    1.0 - b.combined == (1.0 - u * b.rateComponent) * (1.0 - v * b.surprisalComponent) * (1.0 - w * b.entropyComponent)
  }

  lemma NormalizeScales(value: real, reference: real)
    ensures Scaled(Normalize(value, reference), value, reference)
  {
    if reference > 0.0 && 0.0 < value < reference {
      Scaling(value, reference);
      assert (value / reference) * reference == value;
    }
  }

  lemma {:induction false} LeftoverOfThree(rs: seq<real>)
    requires |rs| == 3
    ensures Leftover(rs) == (1.0 - rs[0]) * (1.0 - rs[1]) * (1.0 - rs[2])
  {
    assert rs[..2][..1] == rs[..1] && rs[..1][..0] == [];
    assert Leftover([]) == 1.0;
    assert Leftover(rs[..1]) == 1.0 - rs[0];
    assert Leftover(rs[..2]) == Leftover(rs[..1]) * (1.0 - rs[1]);
  }

  lemma {:induction false} ThreeSignals(a: Signal, b: Signal, c: Signal)
    ensures 1.0 - NoisyOr([a, b, c]) == (1.0 - Strength(a)) * (1.0 - Strength(b)) * (1.0 - Strength(c))
  {
    hide Leftover, Strength, NoisyOr;
    NoisyOrIsProbability([a, b, c]);
    LeftoverOfThree(Strengths([a, b, c]));
  }

  /**
   The components of every event are its raw values scaled by their references, falling rates counting
   as none and the entropy by its size and by the template's share of the window; the combined score
   leaves over what the three weighted components together leave over.
   */
  lemma {:induction false} ScoreIsMadeOf(cfg: Config, m: Measures, evs: seq<Event>)
    returns (size: real, storm: real, share: real, u: real, v: real, w: real)
    requires evs != []
    ensures
      var b := Scores(cfg, m, evs)[|evs| - 1].breakdown;
      var entries := Window.Run(WindowLimits(cfg), WindowEntries(evs)).entries;
      && entries != [] && IsShare(share, |Positions(entries, evs[|evs| - 1].input.id)|, |entries|)
      && Scaled(b.rateComponent, b.rateZ, cfg.rateReference)
      && Scaled(b.surprisalComponent, b.surprisal, cfg.surprisalReference)
      && IsSize(size, b.entropyZ) && Scaled(storm, size, cfg.entropyReference) && b.entropyComponent == storm * share
      && IsWeight(u, cfg.weightRate) && IsWeight(v, cfg.weightSurprisal) && IsWeight(w, cfg.weightEntropy)
      && Leaves(b, u, v, w)
  {
    hide Taught, Window.Run, Leaves, Combine, Clamp01;
    var l, e := Taught(cfg, m, evs), evs[|evs| - 1].input;
    var count, total := Count(l, e.id), |l.window.entries|;
    LastScoreOf(cfg, m, evs);
    WindowIsNotEmpty(cfg, m, evs);
    WindowSeesEveryEvent(cfg, m, evs);
    OccurrencesCount(l.window.entries, e.id);
    OccursAtMostOften(l.window.entries, e.id);
    share := ShareOf(count, total);
    ShareCounts(count, total);
    ShareInRange(count, total);
    u, v, w := Clamp01(cfg.weightRate), Clamp01(cfg.weightSurprisal), Clamp01(cfg.weightEntropy);
    ClampIsWeight(cfg.weightRate);
    ClampIsWeight(cfg.weightSurprisal);
    ClampIsWeight(cfg.weightEntropy);
    size, storm := CombineScales(cfg, RateScore(l, m, e), SurprisalOf(l, m, e), EntropyScore(l, m), share);
    CombineLeaves(cfg, RateScore(l, m, e), SurprisalOf(l, m, e), EntropyScore(l, m), share);
  }

  lemma ShareCounts(count: nat, total: nat)
    requires total > 0
    ensures IsShare(ShareOf(count, total), count, total)
  {
  }

  /** Raw values and components. */
  lemma {:induction false} CombineScales(cfg: Config, rateZ: real, surprisal: real, entropyZ: real, share: real)
    returns (size: real, storm: real)
    ensures
      var b := Combine(cfg, rateZ, surprisal, entropyZ, share);
      && b.rateZ == rateZ && b.surprisal == surprisal && b.entropyZ == entropyZ
      && Scaled(b.rateComponent, b.rateZ, cfg.rateReference)
      && Scaled(b.surprisalComponent, b.surprisal, cfg.surprisalReference)
      && IsSize(size, b.entropyZ) && Scaled(storm, size, cfg.entropyReference) && b.entropyComponent == storm * share
      && 0.0 <= storm <= 1.0
  {
    hide NoisyOr, Normalize, Strength, Clamp01;
    NormalizeScales(if rateZ < 0.0 then 0.0 else rateZ, cfg.rateReference);
    NormalizeScales(surprisal, cfg.surprisalReference);
    size := Abs(entropyZ);
    NormalizeScales(size, cfg.entropyReference);
    storm := Normalize(size, cfg.entropyReference);
  }

  lemma {:induction false} CombineLeaves(cfg: Config, rateZ: real, surprisal: real, entropyZ: real, share: real)
    requires 0.0 <= share <= 1.0
    ensures Leaves(Combine(cfg, rateZ, surprisal, entropyZ, share),
                   Clamp01(cfg.weightRate), Clamp01(cfg.weightSurprisal), Clamp01(cfg.weightEntropy))
  {
    hide NoisyOr, Normalize, Strength, Clamp01, Leaves;
    var b := Combine(cfg, rateZ, surprisal, entropyZ, share);
    var s := SignalsOf(cfg, rateZ, surprisal, entropyZ, share);
    CombinedIsNoisyOr(cfg, rateZ, surprisal, entropyZ, share);
    ThreeSignals(s[0], s[1], s[2]);
    assert s == [s[0], s[1], s[2]];
    ProductInRange(Normalize(Abs(entropyZ), cfg.entropyReference), share);
    InRangeStrength(s[0]);
    InRangeStrength(s[1]);
    InRangeStrength(s[2]);
    LeavesProduct(b, Strength(s[0]), Strength(s[1]), Strength(s[2]),
                  Clamp01(cfg.weightRate), Clamp01(cfg.weightSurprisal), Clamp01(cfg.weightEntropy));
  }

  lemma LeavesProduct(b: Breakdown, x: real, y: real, z: real, u: real, v: real, w: real)
    requires 1.0 - b.combined == (1.0 - x) * (1.0 - y) * (1.0 - z)
    requires x == u * b.rateComponent && y == v * b.surprisalComponent && z == w * b.entropyComponent
    ensures Leaves(b, u, v, w)
  {
  }

  lemma ClampIsWeight(weight: real)
    ensures IsWeight(Clamp01(weight), weight)
  {
  }

  lemma InRangeStrength(s: Signal)
    requires 0.0 <= s.component <= 1.0
    ensures Strength(s) == Clamp01(s.weight) * s.component
  {
  }

  // ------------------------------------------------ settings

  /** What the settings mean to the parts: times in microseconds as far as 64 bits reach, bounds of at least one. */
  lemma SettingsReachTheParts(cfg: Config, now: nat)
    ensures
      var w, r := WindowLimits(cfg), RateLimits(cfg);
      && w.windowUs == Min(cfg.windowSeconds * 1_000_000, U64_MAX) && w.maxEntries == Max(1, cfg.maxWindowEvents)
      && r.bucketUs == Min(Max(1, cfg.bucketSeconds) * 1_000_000, U64_MAX)
      && r.historyLen == Max(1, cfg.historyBuckets)
      && r.maxTemplates == Max(1, cfg.maxTemplates) && r.idleBuckets == Max(1, cfg.idleBuckets)
    ensures BucketOf(cfg, now) == Rate.BucketOf(RateLimits(cfg), now)
    ensures CooldownUs(cfg) == Min(cfg.cooldownSeconds * 1_000_000, U64_MAX)
    ensures LearningUs(cfg) == Min(cfg.learningMinutes * 60_000_000, U64_MAX)
  {
  }
}
