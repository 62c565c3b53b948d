/** What the registry answers to a line, and where it puts it, in terms of the lines it has seen. */
module TemplateAnswers {
  import opened Common
  import opened Template
  import opened TemplateRuns

  // ------------------------------------------------ similarity by counting

  /** Positions that are not generalised. */
  ghost function ConcretePositions(t: Line): set<nat> {
    set i | 0 <= i < |t| && t[i] != WILDCARD
  }

  /** Positions that are not generalised and agree with the line. */
  ghost function AgreeingPositions(t: Line, l: Line): set<nat>
    requires |t| == |l|
  {
    set i | 0 <= i < |t| && t[i] != WILDCARD && t[i] == l[i]
  }

  lemma ConcreteNext(t: Line, x: Token)
    ensures |ConcretePositions(t + [x])| == |ConcretePositions(t)| + if x != WILDCARD then 1 else 0
  {
    var front, all := ConcretePositions(t), ConcretePositions(t + [x]);
    if x != WILDCARD {
      assert all == front + {|t|};
    } else {
      assert all == front;
    }
  }

  lemma AgreeingNext(t: Line, l: Line, x: Token, y: Token)
    requires |t| == |l|
    ensures |AgreeingPositions(t + [x], l + [y])|
            == |AgreeingPositions(t, l)| + if x != WILDCARD && x == y then 1 else 0
  {
    var front, all := AgreeingPositions(t, l), AgreeingPositions(t + [x], l + [y]);
    if x != WILDCARD && x == y {
      assert all == front + {|t|};
    } else {
      assert all == front;
    }
  }

  lemma {:induction false} PositionsCount(t: Line, l: Line)
    requires |t| == |l|
    ensures Concrete(t) == |ConcretePositions(t)| && Hits(t, l) == |AgreeingPositions(t, l)|
  {
    if t == [] {
    } else {
      hide ConcretePositions, AgreeingPositions;
      var n := |t| - 1;
      PositionsCount(t[..n], l[..n]);
      ConcreteNext(t[..n], t[n]);
      AgreeingNext(t[..n], l[..n], t[n], l[n]);
      assert t == t[..n] + [t[n]] && l == l[..n] + [l[n]];
    }
  }

  /** Similarity is the share of the concrete positions that agree, and zero without any; empty lines are alike. */
  lemma {:induction false} SimilarityIsAShare(t: Line, l: Line)
    requires |t| == |l|
    ensures Similarity(t, l) * |ConcretePositions(t)| as real == |AgreeingPositions(t, l)| as real
    ensures ConcretePositions(t) == {} ==> Similarity(t, l) == if t == [] then 1.0 else 0.0
  {
    PositionsCount(t, l);
    HitsBounds(t, l);
    hide Concrete, Hits, ConcretePositions, AgreeingPositions, AgreesWhereConcrete;
    ShareTimes(Hits(t, l), Concrete(t));
  }

  lemma ShareTimes(part: nat, whole: nat)
    ensures whole > 0 ==> part as real / whole as real * whole as real == part as real
  {
  }

  // ------------------------------------------------ where a line goes

  /** The cluster at `b` is the first of the most similar ones, and similar enough. */
  ghost predicate MostSimilar(cs: seq<Cluster>, cfg: Settings, l: Line, b: nat) {
    && b < |cs| && |cs[b].tokens| == |l| && Similarity(cs[b].tokens, l) >= cfg.threshold
    && (forall i :: 0 <= i < |cs| && |cs[i].tokens| == |l| ==>
          Similarity(cs[i].tokens, l) <= Similarity(cs[b].tokens, l))
    && (forall i :: 0 <= i < b && |cs[i].tokens| == |l| ==>
          Similarity(cs[i].tokens, l) < Similarity(cs[b].tokens, l))
  }

  /** The cluster at `o` is the first of those seen longest ago. */
  ghost predicate SeenLongestAgo(cs: seq<Cluster>, o: nat) {
    && o < |cs|
    && (forall i :: 0 <= i < |cs| ==> cs[o].lastSeen <= cs[i].lastSeen)
    && (forall i :: 0 <= i < o ==> cs[o].lastSeen < cs[i].lastSeen)
  }

  /** The line was taken in by the cluster at `b`; no other cluster changed. */
  ghost predicate TakenBy(cs: seq<Cluster>, after: seq<Cluster>, l: Line, now: nat, b: nat) {
    && |after| == |cs| && b < |cs| && |after[b].tokens| == |l| == |cs[b].tokens|
    && (forall i :: 0 <= i < |cs| && i != b ==> after[i] == cs[i])
    && after[b].id == cs[b].id && after[b].firstSeen == cs[b].firstSeen
    && after[b].lastSeen == now && after[b].count == cs[b].count + 1
    && forall k :: 0 <= k < |l| ==> after[b].tokens[k] == if cs[b].tokens[k] == l[k] then l[k] else WILDCARD
  }

  /** The line founded a cluster behind those of `kept`. */
  ghost predicate FoundedBehind(kept: seq<Cluster>, after: seq<Cluster>, hash: HashFn, l: Line, now: nat) {
    after == kept + [Cluster(hash(Join(l)), l, now, now, 1)]
  }

  /**
   A line joins the most similar cluster of its length, the first of several. If none is similar
   enough it founds a cluster; if the bound is reached, the cluster seen longest ago goes first.
   */
  lemma {:induction false} LineGoesToTheMostSimilar(cs: seq<Cluster>, cfg: Settings, hash: HashFn, l: Line, now: nat)
    requires l != []
    ensures
      var after := Step(cs, cfg, hash, l, now);
      if exists b :: MostSimilar(cs, cfg, l, b) then
        exists b :: MostSimilar(cs, cfg, l, b) && TakenBy(cs, after, l, now, b)
      else if |cs| < cfg.maxTemplates || cs == [] then FoundedBehind(cs, after, hash, l, now)
      else exists o: nat :: SeenLongestAgo(cs, o) && FoundedBehind(cs[..o] + cs[o + 1..], after, hash, l, now)
  {
    hide Similarity, Join;
    var best, after := Best(cs, l, cfg.threshold), Step(cs, cfg, hash, l, now);
    if best.Some? {
      assert MostSimilar(cs, cfg, l, best.value);
      assert TakenBy(cs, after, l, now, best.value);
    } else {
      forall b
        ensures !MostSimilar(cs, cfg, l, b)
      {
        assert MostSimilar(cs, cfg, l, b) ==> Candidate(cs, l, cfg.threshold, b);
      }
      if |cs| >= cfg.maxTemplates && cs != [] {
        assert SeenLongestAgo(cs, Oldest(cs));
      }
    }
  }

  /** Without a cluster of its length that is similar enough, there is no most similar one to join, and vice versa. */
  lemma {:induction false} JoinsExactlyWhenSimilarEnough(cs: seq<Cluster>, cfg: Settings, l: Line)
    ensures (exists b :: MostSimilar(cs, cfg, l, b))
            <==> exists i :: 0 <= i < |cs| && |cs[i].tokens| == |l| && Similarity(cs[i].tokens, l) >= cfg.threshold
  {
    hide Similarity;
    var best := Best(cs, l, cfg.threshold);
    if best.Some? {
      assert MostSimilar(cs, cfg, l, best.value);
    } else {
      forall i | 0 <= i < |cs| && |cs[i].tokens| == |l|
        ensures Similarity(cs[i].tokens, l) < cfg.threshold
      {
        assert !Candidate(cs, l, cfg.threshold, i);
      }
    }
  }

  // ------------------------------------------------ what the caller is told

  /** A log of a cluster that ends with the line. */
  ghost predicate LastOf(log: Log, e: TemplateRuns.Event) {
    Uniform(log) && log[|log| - 1] == e
  }

  /** The answer describes the lines of a log. */
  ghost predicate Describing(m: Match, log: Log, hash: HashFn)
    requires Uniform(log)
  {
    && m.id == hash(Join(log[0].line)) && m.template == Join(Generalisation(log))
    && m.firstSeen == log[0].now && m.count == |log|
    && (m.isNew <==> |log| == 1)
  }

  /** The answer to the last line of a run. */
  function LastAnswer(cfg: Settings, hash: HashFn, evs: seq<TemplateRuns.Event>): Match
    requires evs != []
  {
    var e := evs[|evs| - 1];
    Report(Clusters(cfg, hash, evs[..|evs| - 1]), cfg, hash, e.line, e.now)
  }

  /**
   In every run, the answer to a line describes the lines of the cluster it went to: their template,
   how many there are, when the first came, and whether this is the first.
   */
  lemma {:induction false} AnswerDescribesItsCluster(cfg: Settings, hash: HashFn, evs: seq<TemplateRuns.Event>)
    requires evs != []
    ensures
      var m, e, live := LastAnswer(cfg, hash, evs), evs[|evs| - 1], Traced(cfg, hash, evs).live;
      if e.line == [] then m == Match(EMPTY_ID, "", e.now, 0, false)
      else exists i :: 0 <= i < |live| && LastOf(live[i], e) && Describing(m, live[i], hash)
  {
    var n := |evs| - 1;
    var e, r := evs[n], Traced(cfg, hash, evs[..n]);
    ClustersSummariseTheirLines(cfg, hash, evs[..n]);
    ClustersSummariseTheirLines(cfg, hash, evs);
    TracedUnfold(cfg, hash, evs);
    hide Traced, Assign, Explained, Describing, LastOf, Report, Clusters;
    if e.line == [] {
      EmptyLineAnswer(r.clusters, cfg, hash, e);
    } else {
      var i := ReportDescribes(r, cfg, hash, e);
    }
  }

  lemma {:induction false} TracedUnfold(cfg: Settings, hash: HashFn, evs: seq<TemplateRuns.Event>)
    requires evs != []
    ensures Traced(cfg, hash, evs) == Assign(Traced(cfg, hash, evs[..|evs| - 1]), cfg, hash, evs[|evs| - 1])
  {
  }

  lemma EmptyLineAnswer(cs: seq<Cluster>, cfg: Settings, hash: HashFn, e: TemplateRuns.Event)
    requires e.line == []
    ensures Report(cs, cfg, hash, e.line, e.now) == Match(EMPTY_ID, "", e.now, 0, false)
  {
  }

  lemma ReportDescribes(r: Run, cfg: Settings, hash: HashFn, e: TemplateRuns.Event) returns (i: nat)
    requires e.line != [] && Explained(r, hash) && Explained(Assign(r, cfg, hash, e), hash)
    ensures var live := Assign(r, cfg, hash, e).live;
            && i < |live| && LastOf(live[i], e)
            && Describing(Report(r.clusters, cfg, hash, e.line, e.now), live[i], hash)
  {
    var q := Assign(r, cfg, hash, e);
    var best := Best(r.clusters, e.line, cfg.threshold);
    hide Best, Oldest, Join, Similarity;
    if best.Some? {
      i := best.value;
      assert q.clusters[i] == Joined(r.clusters[i], e.line, e.now) == Summary(hash, q.live[i]);
      assert q.live[i] == r.live[i] + [e];
    } else {
      i := |q.live| - 1;
      assert q.live[i] == [e];
      assert q.clusters[i] == Summary(hash, q.live[i]);
    }
  }

  /** The text of a line is its tokens with single spaces between them. */
  lemma {:induction false} TextIsTokensWithSpaces(a: Line, b: Line)
    requires a != [] && b != []
    ensures Join(a + b) == Join(a) + " " + Join(b)
    ensures |a| == 1 ==> Join(a) == a[0]
  {
    if |a| == 1 {
      assert (a + b)[1..] == b;
    } else {
      TextIsTokensWithSpaces(a[1..], b);
      assert (a + b)[1..] == a[1..] + b;
    }
  }
}
