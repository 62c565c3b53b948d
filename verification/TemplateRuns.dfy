/**
 What every run of the template registry guarantees: each cluster is a function of the lines
 assigned to it, its template is their least general generalisation, and patterns are not
 founded twice.
 */
module TemplateRuns {
  import opened Common
  import opened Template

  datatype Event = Event(line: Line, now: nat)

  /** The lines assigned to one cluster, oldest first. */
  type Log = seq<Event>

  /** A run with its history: `live[i]` are the lines of cluster `i`, `gone` the logs of evicted clusters. */
  datatype Run = Run(clusters: seq<Cluster>, live: seq<Log>, gone: seq<Log>)

  /** The registry after a whole run from empty. */
  function Clusters(cfg: Settings, hash: HashFn, evs: seq<Event>): seq<Cluster> {
    if evs == [] then []
    else
      var e := evs[|evs| - 1];
      Step(Clusters(cfg, hash, evs[..|evs| - 1]), cfg, hash, e.line, e.now)
  }

  /** Where one line goes: into the log of its cluster, or into a log of its own. */
  ghost function Assign(r: Run, cfg: Settings, hash: HashFn, e: Event): (r': Run)
    requires |r.live| == |r.clusters|
    ensures r'.clusters == Step(r.clusters, cfg, hash, e.line, e.now)
    ensures |r'.live| == |r'.clusters|
  {
    var clusters := Step(r.clusters, cfg, hash, e.line, e.now);
    if e.line == [] then r
    else match Best(r.clusters, e.line, cfg.threshold)
      case Some(b) => Run(clusters, r.live[b := r.live[b] + [e]], r.gone)
      case None =>
        if |r.clusters| >= cfg.maxTemplates && r.clusters != [] then
          var o := Oldest(r.clusters);
          Run(clusters, RemoveAt(r.live, o) + [[e]], r.gone + [r.live[o]])
        else Run(clusters, r.live + [[e]], r.gone)
  }

  ghost function Traced(cfg: Settings, hash: HashFn, evs: seq<Event>): (r: Run)
    ensures |r.live| == |r.clusters| && r.clusters == Clusters(cfg, hash, evs)
  {
    if evs == [] then Run([], [], [])
    else Assign(Traced(cfg, hash, evs[..|evs| - 1]), cfg, hash, evs[|evs| - 1])
  }

  // ------------------------------------------------ least general generalisation

  /** A log has lines, all of one non-zero length. */
  ghost predicate Uniform(log: Log) {
    log != [] && log[0].line != [] && forall k :: 0 <= k < |log| ==> |log[k].line| == |log[0].line|
  }

  ghost function Generalisation(log: Log): (g: Line)
    requires Uniform(log)
    ensures |g| == |log[0].line|
  {
    seq(|log[0].line|, i requires 0 <= i < |log[0].line| =>
      if forall k :: 0 <= k < |log| ==> log[k].line[i] == log[0].line[i] then log[0].line[i] else WILDCARD)
  }

  /** Pattern `p` describes the line: every concrete position agrees with it. */
  ghost predicate Describes(p: Line, l: Line) {
    |p| == |l| && forall i :: 0 <= i < |p| ==> p[i] == WILDCARD || p[i] == l[i]
  }

  /** The generalisation describes every line of the log, and every pattern that does so is at least as general. */
  lemma GeneralisationIsLeast(log: Log, p: Line)
    requires Uniform(log)
    ensures (forall k :: 0 <= k < |log| ==> Describes(p, log[k].line)) <==> Describes(p, Generalisation(log))
  {
    var g := Generalisation(log);
    if forall k :: 0 <= k < |log| ==> Describes(p, log[k].line) {
      forall i | 0 <= i < |p|
        ensures p[i] == WILDCARD || p[i] == g[i]
      {
        if p[i] != WILDCARD {
          assert forall k :: 0 <= k < |log| ==> Describes(p, log[k].line);
        }
      }
    }
    if Describes(p, g) {
      forall k | 0 <= k < |log|
        ensures Describes(p, log[k].line)
      {
        assert forall i :: 0 <= i < |g| && g[i] != WILDCARD ==> g[i] == log[k].line[i];
      }
    }
  }

  /** Everything a cluster holds, computed from its log. */
  ghost function Summary(hash: HashFn, log: Log): Cluster
    requires Uniform(log)
  {
    Cluster(hash(Join(log[0].line)), Generalisation(log), log[0].now, log[|log| - 1].now, |log|)
  }

  ghost predicate Explained(r: Run, hash: HashFn) {
    && |r.live| == |r.clusters|
    && forall i :: 0 <= i < |r.live| ==> Uniform(r.live[i]) && r.clusters[i] == Summary(hash, r.live[i])
  }

  lemma SummaryGrows(hash: HashFn, log: Log, e: Event)
    requires Uniform(log) && |e.line| == |log[0].line|
    ensures Uniform(log + [e])
    ensures Joined(Summary(hash, log), e.line, e.now) == Summary(hash, log + [e])
  {
    var grown := log + [e];
    assert grown[0] == log[0];
    var g, g' := Generalisation(log), Generalisation(grown);
    forall i | 0 <= i < |g|
      ensures Merge(g, e.line)[i] == g'[i]
    {
      assert grown[|log|] == e;
      if forall k :: 0 <= k < |log| ==> log[k].line[i] == log[0].line[i] {
        assert forall k :: 0 <= k < |log| ==> grown[k].line[i] == log[k].line[i];
      } else {
        var k :| 0 <= k < |log| && log[k].line[i] != log[0].line[i];
        assert grown[k].line[i] != grown[0].line[i];
      }
    }
    assert Merge(g, e.line) == g';
  }

  lemma SummaryOfOne(hash: HashFn, e: Event)
    requires e.line != []
    ensures Uniform([e]) && Founded(hash, e.line, e.now) == Summary(hash, [e])
  {
    assert Generalisation([e]) == e.line;
  }

  lemma AssignExplained(r: Run, cfg: Settings, hash: HashFn, e: Event)
    requires Explained(r, hash)
    ensures Explained(Assign(r, cfg, hash, e), hash)
  {
    if e.line != [] {
      SummaryOfOne(hash, e);
      var best := Best(r.clusters, e.line, cfg.threshold);
      if best.Some? {
        SummaryGrows(hash, r.live[best.value], e);
      }
    }
  }

  /** In every run, each live cluster is the summary of its log; its template is the least general generalisation. */
  lemma {:induction false} ClustersSummariseTheirLines(cfg: Settings, hash: HashFn, evs: seq<Event>)
    ensures Explained(Traced(cfg, hash, evs), hash)
  {
    if evs == [] {
    } else {
      ClustersSummariseTheirLines(cfg, hash, evs[..|evs| - 1]);
      AssignExplained(Traced(cfg, hash, evs[..|evs| - 1]), cfg, hash, evs[|evs| - 1]);
    }
  }

  // ------------------------------------------------ no line is lost

  ghost function Union(logs: seq<Log>): multiset<Event> {
    if logs == [] then multiset{} else Union(logs[..|logs| - 1]) + multiset(logs[|logs| - 1])
  }

  ghost function Lines(evs: seq<Event>): multiset<Event> {
    if evs == [] then multiset{}
    else Lines(evs[..|evs| - 1]) + if evs[|evs| - 1].line == [] then multiset{} else multiset{evs[|evs| - 1]}
  }

  lemma {:induction false} UnionGrows(logs: seq<Log>, b: nat, e: Event)
    requires b < |logs|
    ensures Union(logs[b := logs[b] + [e]]) == Union(logs) + multiset{e}
  {
    var n := |logs| - 1;
    var grown := logs[b := logs[b] + [e]];
    if b < n {
      assert grown[..n] == logs[..n][b := logs[..n][b] + [e]];
      UnionGrows(logs[..n], b, e);
    } else {
      assert grown[..n] == logs[..n];
    }
  }

  lemma {:induction false} UnionWithout(logs: seq<Log>, o: nat)
    requires o < |logs|
    ensures Union(RemoveAt(logs, o)) + multiset(logs[o]) == Union(logs)
  {
    var n := |logs| - 1;
    if o < n {
      assert RemoveAt(logs, o)[..n - 1] == RemoveAt(logs[..n], o);
      UnionWithout(logs[..n], o);
    } else {
      assert RemoveAt(logs, o) == logs[..n];
    }
  }

  lemma {:induction false} UnionAppend(logs: seq<Log>, log: Log)
    ensures Union(logs + [log]) == Union(logs) + multiset(log)
  {
    assert (logs + [log])[..|logs|] == logs;
  }

  /** The logs of live and evicted clusters together hold every non-empty line of the run, once. */
  lemma {:induction false} LogsPartitionTheRun(cfg: Settings, hash: HashFn, evs: seq<Event>)
    ensures Union(Traced(cfg, hash, evs).live) + Union(Traced(cfg, hash, evs).gone) == Lines(evs)
  {
    hide Assign, Union;
    if evs == [] {
      NoLines(cfg, hash);
    } else {
      var n := |evs| - 1;
      LogsPartitionTheRun(cfg, hash, evs[..n]);
      ClustersSummariseTheirLines(cfg, hash, evs[..n]);
      AssignAddsOneLine(Traced(cfg, hash, evs[..n]), cfg, hash, evs[n]);
    }
  }

  lemma {:induction false} NoLines(cfg: Settings, hash: HashFn)
    ensures Union(Traced(cfg, hash, []).live) + Union(Traced(cfg, hash, []).gone) == multiset{}
  {
  }

  lemma {:induction false} AssignAddsOneLine(r: Run, cfg: Settings, hash: HashFn, e: Event)
    requires |r.live| == |r.clusters|
    ensures var q := Assign(r, cfg, hash, e);
            Union(q.live) + Union(q.gone)
            == Union(r.live) + Union(r.gone) + if e.line == [] then multiset{} else multiset{e}
  {
    hide Union;
    if e.line != [] {
      var best := Best(r.clusters, e.line, cfg.threshold);
      if best.Some? {
        UnionGrows(r.live, best.value, e);
      } else if |r.clusters| >= cfg.maxTemplates && r.clusters != [] {
        var o := Oldest(r.clusters);
        UnionWithout(r.live, o);
        UnionAppend(RemoveAt(r.live, o), [e]);
        UnionAppend(r.gone, r.live[o]);
      } else {
        UnionAppend(r.live, [e]);
      }
    }
  }

  lemma StepSize(cs: seq<Cluster>, cfg: Settings, hash: HashFn, l: Line, now: nat)
    ensures |Step(cs, cfg, hash, l, now)| <= Max(|cs|, Max(1, cfg.maxTemplates))
    ensures l != [] ==> |Step(cs, cfg, hash, l, now)| >= 1
  {
  }

  /** The configured bound holds throughout, except that a bound of zero still keeps one cluster. */
  lemma {:induction false} RegistryIsBounded(cfg: Settings, hash: HashFn, evs: seq<Event>)
    ensures |Clusters(cfg, hash, evs)| <= Max(1, cfg.maxTemplates)
    ensures (exists k :: 0 <= k < |evs| && evs[k].line != []) ==> |Clusters(cfg, hash, evs)| >= 1
  {
    if evs == [] {
    } else {
      var n := |evs| - 1;
      RegistryIsBounded(cfg, hash, evs[..n]);
      var before, e := Clusters(cfg, hash, evs[..n]), evs[n];
      StepSize(before, cfg, hash, e.line, e.now);
      StepNeverEmpties(before, cfg, hash, e.line, e.now);
      assert forall k :: 0 <= k < n ==> evs[..n][k] == evs[k];
    }
  }

  lemma StepNeverEmpties(cs: seq<Cluster>, cfg: Settings, hash: HashFn, l: Line, now: nat)
    ensures cs != [] ==> Step(cs, cfg, hash, l, now) != []
  {
  }

  // ------------------------------------------------ similarity in terms of positions

  ghost predicate AgreesWhereConcrete(t: Line, l: Line)
    requires |t| == |l|
  {
    forall i :: 0 <= i < |t| ==> t[i] == WILDCARD || t[i] == l[i]
  }

  lemma {:induction false} HitsBounds(t: Line, l: Line)
    requires |t| == |l|
    ensures Hits(t, l) <= Concrete(t)
    ensures Hits(t, l) == Concrete(t) <==> AgreesWhereConcrete(t, l)
    ensures Hits(t, l) > 0 <==> exists i :: 0 <= i < |t| && t[i] != WILDCARD && t[i] == l[i]
    ensures Concrete(t) > 0 <==> exists i :: 0 <= i < |t| && t[i] != WILDCARD
  {
    if t == [] {
    } else {
      var n := |t| - 1;
      HitsBounds(t[..n], l[..n]);
      assert forall i :: 0 <= i < n ==> t[..n][i] == t[i] && l[..n][i] == l[i];
    }
  }

  lemma Quotient(a: nat, b: nat)
    requires b > 0 && a <= b
    ensures 0.0 <= a as real / b as real <= 1.0
    ensures a as real / b as real == 1.0 <==> a == b
    ensures a as real / b as real > 0.0 <==> a > 0
  {
  }

  /** A similarity above zero needs a common concrete token; a similarity of one needs all of them. */
  lemma {:induction false} SimilarityMeaning(t: Line, l: Line)
    requires |t| == |l| && t != []
    ensures 0.0 <= Similarity(t, l) <= 1.0
    ensures Similarity(t, l) > 0.0 <==> exists i :: 0 <= i < |t| && t[i] != WILDCARD && t[i] == l[i]
    ensures Similarity(t, l) == 1.0 <==> Concrete(t) > 0 && AgreesWhereConcrete(t, l)
  {
    HitsBounds(t, l);
    if Concrete(t) > 0 {
      Quotient(Hits(t, l), Concrete(t));
    }
  }

  /** Merging in a line above a positive threshold keeps a concrete position, and the line then matches fully. */
  lemma MergeKeepsConcrete(t: Line, l: Line)
    requires |t| == |l| && t != []
    ensures AgreesWhereConcrete(Merge(t, l), l)
    ensures Concrete(Merge(t, l)) > 0 <==> Similarity(t, l) > 0.0
  {
    SimilarityMeaning(t, l);
    HitsBounds(Merge(t, l), l);
    var m := Merge(t, l);
    if i :| 0 <= i < |t| && t[i] != WILDCARD && t[i] == l[i] {
      assert m[i] != WILDCARD;
    }
  }

  // ------------------------------------------------ patterns are recognised again

  ghost predicate Sane(cfg: Settings) { 0.0 <= cfg.threshold <= 1.0 }

  /** A positive threshold never admits a line of literal `<*>` tokens anywhere. */
  lemma {:induction false} WildcardLineMatchesNothing(cs: seq<Cluster>, l: Line, threshold: real)
    requires l != [] && Concrete(l) == 0 && threshold > 0.0
    ensures Best(cs, l, threshold) == None
  {
    HitsBounds(l, l);
    forall i | 0 <= i < |cs|
      ensures !Candidate(cs, l, threshold, i)
    {
      if |cs[i].tokens| == |l| {
        SimilarityMeaning(cs[i].tokens, l);
      }
    }
  }

  /** The cluster that took a line in is a candidate for the same line again. */
  lemma {:induction false} TakerIsCandidate(cs: seq<Cluster>, cfg: Settings, hash: HashFn, l: Line, now: nat)
    requires Sane(cfg) && l != [] && (cfg.threshold == 0.0 || Concrete(l) > 0)
    ensures Best(Step(cs, cfg, hash, l, now), l, cfg.threshold) != None
  {
    var after := Step(cs, cfg, hash, l, now);
    var best := Best(cs, l, cfg.threshold);
    var i := if best.Some? then best.value else |after| - 1;
    var t := after[i].tokens;
    if best.Some? {
      assert t == Merge(cs[i].tokens, l);
      MergeKeepsConcrete(cs[i].tokens, l);
    } else {
      assert t == l;
    }
    SimilarityMeaning(t, l);
    assert Candidate(after, l, cfg.threshold, i);
  }

  /**
   A line is recognised when it comes again at once, whatever the registry holds, unless the
   threshold is positive and the line consists of literal `<*>` tokens: then it founds a second cluster.
   */
  lemma {:induction false} RepeatedLineIsNewExactlyWhenAllWildcards(
      cs: seq<Cluster>, cfg: Settings, hash: HashFn, l: Line, now: nat, later: nat)
    requires Sane(cfg) && l != []
    ensures Report(Step(cs, cfg, hash, l, now), cfg, hash, l, later).isNew
            <==> cfg.threshold > 0.0 && Concrete(l) == 0
  {
    if cfg.threshold > 0.0 && Concrete(l) == 0 {
      WildcardLineMatchesNothing(Step(cs, cfg, hash, l, now), l, cfg.threshold);
    } else {
      TakerIsCandidate(cs, cfg, hash, l, now);
    }
  }

  /** Concrete witness of the exception: two clusters with one id. */
  lemma WildcardLineFoundsTwice(hash: HashFn)
    ensures
      var cs := Clusters(Settings(0.7, 100), hash, [Event(["<*>"], 1), Event(["<*>"], 2)]);
      |cs| == 2 && cs[0].id == cs[1].id
  {
    var cfg := Settings(0.7, 100);
    var e1, e2 := Event([WILDCARD], 1), Event([WILDCARD], 2);
    assert [e1, e2][..1] == [e1] && [e1][..0] == [];
    assert Clusters(cfg, hash, []) == [];
    var one := Clusters(cfg, hash, [e1]);
    assert one == Step([], cfg, hash, e1.line, 1);
    assert Concrete([WILDCARD]) == 0 by { assert [WILDCARD][..0] == []; }
    RepeatedLineIsNewExactlyWhenAllWildcards([], cfg, hash, [WILDCARD], 1, 2);
    assert Clusters(cfg, hash, [e1, e2]) == Step(one, cfg, hash, e2.line, 2);
  }

  /** The registry can recognise the line again: it has a concrete token, or the threshold admits anything. */
  predicate Recognisable(cfg: Settings, l: Line) {
    cfg.threshold == 0.0 || Concrete(l) > 0
  }

  /** Only lines that cannot be recognised found two live clusters, and every other cluster stays recognisable. */
  ghost predicate FoundedOnce(r: Run, cfg: Settings) {
    && |r.live| == |r.clusters|
    && (forall i :: 0 <= i < |r.live| ==> r.live[i] != [])
    && (forall i :: 0 <= i < |r.live| && Recognisable(cfg, r.live[i][0].line) ==>
          Recognisable(cfg, r.clusters[i].tokens))
    && (forall i, j :: 0 <= i < j < |r.live| && Recognisable(cfg, r.live[i][0].line) ==>
          r.live[i][0].line != r.live[j][0].line)
  }

  lemma FounderMatches(r: Run, cfg: Settings, hash: HashFn, i: nat)
    requires Sane(cfg) && Explained(r, hash) && FoundedOnce(r, cfg) && i < |r.live|
    requires Recognisable(cfg, r.live[i][0].line)
    ensures Best(r.clusters, r.live[i][0].line, cfg.threshold).Some?
  {
    var l := r.live[i][0].line;
    SimilarityMeaning(r.clusters[i].tokens, l);
    assert Candidate(r.clusters, l, cfg.threshold, i);
  }

  lemma {:induction false} CandidateSimilarity(cs: seq<Cluster>, l: Line, cfg: Settings, b: nat)
    requires Sane(cfg) && l != [] && Best(cs, l, cfg.threshold) == Some(b)
    ensures b < |cs| && |cs[b].tokens| == |l| && (cfg.threshold > 0.0 ==> Similarity(cs[b].tokens, l) > 0.0)
  {
  }

  lemma JoiningFoundsOnce(r: Run, cfg: Settings, hash: HashFn, e: Event, b: nat)
    requires Sane(cfg) && Explained(r, hash) && FoundedOnce(r, cfg)
    requires e.line != [] && Best(r.clusters, e.line, cfg.threshold) == Some(b)
    ensures FoundedOnce(Assign(r, cfg, hash, e), cfg)
  {
    hide Best, Oldest, Similarity, Concrete, Join, Generalisation;
    var r' := Assign(r, cfg, hash, e);
    CandidateSimilarity(r.clusters, e.line, cfg, b);
    MergeKeepsConcrete(r.clusters[b].tokens, e.line);
    assert forall i :: 0 <= i < |r.live| ==> r'.live[i] != [] && r'.live[i][0] == r.live[i][0];
    assert forall i :: 0 <= i < |r.clusters| && i != b ==> r'.clusters[i] == r.clusters[i];
  }

  lemma FoundingFoundsOnce(r: Run, cfg: Settings, hash: HashFn, e: Event)
    requires Sane(cfg) && Explained(r, hash) && FoundedOnce(r, cfg)
    requires e.line != [] && Best(r.clusters, e.line, cfg.threshold) == None
    ensures FoundedOnce(Assign(r, cfg, hash, e), cfg)
  {
    forall i | 0 <= i < |r.live| && Recognisable(cfg, r.live[i][0].line)
      ensures r.live[i][0].line != e.line
    {
      FounderMatches(r, cfg, hash, i);
    }
    var kept := r;
    if |r.clusters| >= cfg.maxTemplates && r.clusters != [] {
      var o := Oldest(r.clusters);
      kept := Run(RemoveAt(r.clusters, o), RemoveAt(r.live, o), r.gone + [r.live[o]]);
      EvictingFoundsOnce(r, cfg, o);
    }
    AddingFoundsOnce(kept, cfg, Founded(hash, e.line, e.now), e);
  }

  lemma EvictingFoundsOnce(r: Run, cfg: Settings, o: nat)
    requires FoundedOnce(r, cfg) && o < |r.live|
    ensures FoundedOnce(Run(RemoveAt(r.clusters, o), RemoveAt(r.live, o), r.gone + [r.live[o]]), cfg)
  {
  }

  lemma AddingFoundsOnce(r: Run, cfg: Settings, c: Cluster, e: Event)
    requires FoundedOnce(r, cfg) && c.tokens == e.line
    requires forall i :: 0 <= i < |r.live| && Recognisable(cfg, r.live[i][0].line) ==> r.live[i][0].line != e.line
    ensures FoundedOnce(Run(r.clusters + [c], r.live + [[e]], r.gone), cfg)
  {
  }

  /**
   In every run, two live clusters were founded by one line only if the threshold is positive and the
   line all `<*>`.
   */
  lemma {:induction false} PatternsAreFoundedOnce(cfg: Settings, hash: HashFn, evs: seq<Event>)
    requires Sane(cfg)
    ensures FoundedOnce(Traced(cfg, hash, evs), cfg)
  {
    if evs == [] {
    } else {
      var n := |evs| - 1;
      PatternsAreFoundedOnce(cfg, hash, evs[..n]);
      ClustersSummariseTheirLines(cfg, hash, evs[..n]);
      var r, e := Traced(cfg, hash, evs[..n]), evs[n];
      if e.line != [] {
        var best := Best(r.clusters, e.line, cfg.threshold);
        if best.Some? {
          JoiningFoundsOnce(r, cfg, hash, e, best.value);
        } else {
          FoundingFoundsOnce(r, cfg, hash, e);
        }
      }
    }
  }

  /** In every run, the line that founded a live cluster matches some cluster exactly if it is recognisable. */
  lemma {:induction false} FounderStillMatches(cfg: Settings, hash: HashFn, evs: seq<Event>, i: nat)
    requires Sane(cfg) && i < |Traced(cfg, hash, evs).live|
    ensures var r := Traced(cfg, hash, evs);
            r.live[i] != [] &&
            (Best(r.clusters, r.live[i][0].line, cfg.threshold).Some? <==> Recognisable(cfg, r.live[i][0].line))
  {
    var r := Traced(cfg, hash, evs);
    PatternsAreFoundedOnce(cfg, hash, evs);
    ClustersSummariseTheirLines(cfg, hash, evs);
    if Recognisable(cfg, r.live[i][0].line) {
      FounderMatches(r, cfg, hash, i);
    } else {
      FoundersAreNotEmpty(cfg, hash, evs, i);
      WildcardLineMatchesNothing(r.clusters, r.live[i][0].line, cfg.threshold);
    }
  }

  /** The founding lines of the live clusters are pairwise different. */
  ghost predicate FoundersDiffer(live: seq<Log>) {
    && (forall i :: 0 <= i < |live| ==> live[i] != [])
    && forall i, j :: 0 <= i < j < |live| ==> live[i][0].line != live[j][0].line
  }

  /** That is so in every run with threshold zero, and in every run without all-wildcard lines. */
  lemma {:induction false} FoundersDifferWithoutWildcardLines(cfg: Settings, hash: HashFn, evs: seq<Event>)
    requires Sane(cfg)
    requires forall k :: 0 <= k < |evs| && evs[k].line != [] ==> Recognisable(cfg, evs[k].line)
    ensures FoundersDiffer(Traced(cfg, hash, evs).live)
  {
    var live: seq<Log> := Traced(cfg, hash, evs).live;
    PatternsAreFoundedOnce(cfg, hash, evs);
    LiveLinesComeFromTheRun(cfg, hash, evs);
    forall i | 0 <= i < |live|
      ensures live[i] != [] && Recognisable(cfg, live[i][0].line)
    {
      FoundersAreNotEmpty(cfg, hash, evs, i);
      assert live[i][0] in evs;
    }
  }

  lemma {:induction false} FoundersAreNotEmpty(cfg: Settings, hash: HashFn, evs: seq<Event>, i: nat)
    requires i < |Traced(cfg, hash, evs).live|
    ensures Traced(cfg, hash, evs).live[i] != [] && Traced(cfg, hash, evs).live[i][0].line != []
  {
    ClustersSummariseTheirLines(cfg, hash, evs);
  }

  // ------------------------------------------------ ids

  /** Tokens come from splitting at white space. */
  ghost predicate SpaceFree(l: Line) {
    forall i :: 0 <= i < |l| ==> ' ' !in l[i]
  }

  lemma {:induction false} SpaceOnlyBetweenTokens(a: Line)
    requires a != [] && SpaceFree(a)
    ensures ' ' in Join(a) <==> |a| > 1
  {
    if |a| > 1 {
      assert Join(a)[|a[0]|] == ' ';
    }
  }

  /** The text of a line determines the line. */
  lemma {:induction false} JoinIsInjective(a: Line, b: Line)
    requires a != [] && b != [] && SpaceFree(a) && SpaceFree(b)
    requires Join(a) == Join(b)
    ensures a == b
  {
    SpaceOnlyBetweenTokens(a);
    SpaceOnlyBetweenTokens(b);
    if |a| > 1 {
      var text := Join(a);
      assert text == a[0] + " " + Join(a[1..]) == b[0] + " " + Join(b[1..]);
      assert text[|a[0]|] == ' ' && text[|b[0]|] == ' ';
      assert forall k :: 0 <= k < |a[0]| ==> text[k] == a[0][k];
      assert forall k :: 0 <= k < |b[0]| ==> text[k] == b[0][k];
      assert |a[0]| == |b[0]|;
      assert a[0] == text[..|a[0]|] == b[0];
      assert Join(a[1..]) == text[|a[0]| + 1..] == Join(b[1..]);
      JoinIsInjective(a[1..], b[1..]);
      assert a == [a[0]] + a[1..] && b == [b[0]] + b[1..];
    }
  }

  ghost predicate DistinctIds(cs: seq<Cluster>) {
    forall i, j :: 0 <= i < j < |cs| ==> cs[i].id != cs[j].id
  }

  /** The hash separates the texts that founded the live clusters. */
  ghost predicate HashSeparates(hash: HashFn, live: seq<Log>) {
    forall i, j :: 0 <= i < |live| && 0 <= j < |live| && live[i] != [] && live[j] != [] ==>
      hash(Join(live[i][0].line)) == hash(Join(live[j][0].line)) ==>
      Join(live[i][0].line) == Join(live[j][0].line)
  }

  ghost predicate LogsFrom(logs: seq<Log>, evs: seq<Event>) {
    forall i, k :: 0 <= i < |logs| && 0 <= k < |logs[i]| ==> logs[i][k] in evs
  }

  lemma AssignLogsFrom(r: Run, cfg: Settings, hash: HashFn, e: Event, evs: seq<Event>)
    requires |r.live| == |r.clusters| && LogsFrom(r.live, evs) && e in evs
    ensures LogsFrom(Assign(r, cfg, hash, e).live, evs)
  {
    hide Best, Oldest, Merge, Join;
    var r' := Assign(r, cfg, hash, e);
    forall i, k | 0 <= i < |r'.live| && 0 <= k < |r'.live[i]|
      ensures r'.live[i][k] in evs
    {
      if r'.live[i][k] != e {
        assert exists j :: 0 <= j < |r.live| && k < |r.live[j]| && r.live[j][k] == r'.live[i][k];
      }
    }
  }

  lemma {:induction false} LiveLinesComeFromTheRun(cfg: Settings, hash: HashFn, evs: seq<Event>)
    ensures LogsFrom(Traced(cfg, hash, evs).live, evs)
  {
    hide Assign;
    if evs == [] {
    } else {
      var n := |evs| - 1;
      LiveLinesComeFromTheRun(cfg, hash, evs[..n]);
      assert forall e :: e in evs[..n] ==> e in evs;
      AssignLogsFrom(Traced(cfg, hash, evs[..n]), cfg, hash, evs[n], evs);
    }
  }

  lemma FoundingTextsDiffer(live: seq<Log>)
    requires forall i :: 0 <= i < |live| ==> live[i] != [] && live[i][0].line != [] && SpaceFree(live[i][0].line)
    requires forall i, j :: 0 <= i < j < |live| ==> live[i][0].line != live[j][0].line
    ensures forall i, j :: 0 <= i < j < |live| ==> Join(live[i][0].line) != Join(live[j][0].line)
  {
    forall i, j | 0 <= i < j < |live|
      ensures Join(live[i][0].line) != Join(live[j][0].line)
    {
      if Join(live[i][0].line) == Join(live[j][0].line) {
        JoinIsInjective(live[i][0].line, live[j][0].line);
      }
    }
  }

  lemma IdsFollowTexts(cs: seq<Cluster>, live: seq<Log>, hash: HashFn)
    requires |cs| == |live|
    requires forall i :: 0 <= i < |live| ==> live[i] != [] && cs[i].id == hash(Join(live[i][0].line))
    requires forall i, j :: 0 <= i < j < |live| ==> Join(live[i][0].line) != Join(live[j][0].line)
    ensures DistinctIds(cs) <==> HashSeparates(hash, live)
  {
    if DistinctIds(cs) {
      forall i, j | 0 <= i < |live| && 0 <= j < |live| && hash(Join(live[i][0].line)) == hash(Join(live[j][0].line))
        ensures i == j
      {
        assert cs[i].id == cs[j].id;
      }
    }
    if HashSeparates(hash, live) {
      forall i, j | 0 <= i < j < |cs|
        ensures cs[i].id != cs[j].id
      {
        assert Join(live[i][0].line) != Join(live[j][0].line);
      }
    }
  }

  /** In every run, live ids are pairwise different exactly if founding lines are and the hash separates their texts. */
  lemma {:induction false} IdsAreDistinctWhenHashSeparates(cfg: Settings, hash: HashFn, evs: seq<Event>)
    requires Sane(cfg) && forall k :: 0 <= k < |evs| ==> SpaceFree(evs[k].line)
    ensures var r := Traced(cfg, hash, evs);
            DistinctIds(r.clusters) <==> FoundersDiffer(r.live) && HashSeparates(hash, r.live)
  {
    var r := Traced(cfg, hash, evs);
    ClustersSummariseTheirLines(cfg, hash, evs);
    LiveLinesComeFromTheRun(cfg, hash, evs);
    forall i | 0 <= i < |r.live|
      ensures r.live[i] != [] && SpaceFree(r.live[i][0].line) && r.live[i][0].line != []
    {
      FoundersAreNotEmpty(cfg, hash, evs, i);
      assert r.live[i][0] in evs;
    }
    if FoundersDiffer(r.live) {
      FoundingTextsDiffer(r.live);
      IdsFollowTexts(r.clusters, r.live, hash);
    } else {
      var i, j :| 0 <= i < j < |r.live| && r.live[i][0].line == r.live[j][0].line;
      assert r.clusters[i].id == r.clusters[j].id;
    }
  }
}
