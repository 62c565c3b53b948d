/** What the edge list promises: one edge per pair, strongest source first, bounded, and as full as the bounds allow. */
module GraphEdges {
  import opened Common
  import opened Terms
  import opened Graph

  // ------------------------------------------------ one edge per pair

  ghost function PairsOf(edges: seq<Edge>): set<(nat, nat)> {
    set i | 0 <= i < |edges| :: PairOf(edges[i])
  }

  /** No self edge, no pair twice, not too many, and the pairs are exactly those of the edges. */
  ghost predicate Simple(o: Out, maxEdges: nat) {
    && |o.edges| <= maxEdges && o.pairs == PairsOf(o.edges)
    && (forall i :: 0 <= i < |o.edges| ==> o.edges[i].source != o.edges[i].target)
    && (forall i, j :: 0 <= i < j < |o.edges| ==> PairOf(o.edges[i]) != PairOf(o.edges[j]))
  }

  lemma PushStaysSimple(o: Out, maxEdges: nat, e: Edge)
    requires Simple(o, maxEdges)
    ensures Simple(Pushed(o, maxEdges, e), maxEdges)
  {
    var q := Pushed(o, maxEdges, e);
    if Takes(o, maxEdges, e) {
      var n := |o.edges|;
      assert PairsOf(q.edges) == PairsOf(o.edges) + {PairOf(e)} by {
        forall pair
          ensures pair in PairsOf(q.edges) <==> pair in PairsOf(o.edges) || pair == PairOf(e)
        {
          assert q.edges[n] == e;
          if pair in PairsOf(o.edges) {
            var i :| 0 <= i < n && PairOf(o.edges[i]) == pair;
            assert q.edges[i] == o.edges[i];
          }
        }
      }
      forall i | 0 <= i < n
        ensures PairOf(q.edges[i]) != PairOf(e)
      {
        assert PairOf(o.edges[i]) in PairsOf(o.edges);
      }
    }
  }

  lemma {:induction false} PushAllStaysSimple(o: Out, maxEdges: nat, es: seq<Edge>)
    requires Simple(o, maxEdges)
    ensures Simple(PushAll(o, maxEdges, es), maxEdges)
  {
    if es == [] {
    } else {
      PushAllStaysSimple(o, maxEdges, es[..|es| - 1]);
      PushStaysSimple(PushAll(o, maxEdges, es[..|es| - 1]), maxEdges, es[|es| - 1]);
    }
  }

  lemma {:induction false} OfferAllStaysSimple(s: Stage, maxEdges: nat, cs: seq<Candidate>)
    requires Fits(cs, |s.capacity|) && Simple(s.out, maxEdges)
    ensures Simple(OfferAll(s, maxEdges, cs).out, maxEdges)
  {
    if cs == [] {
    } else {
      var n := |cs| - 1;
      OfferAllStaysSimple(s, maxEdges, cs[..n]);
      PushStaysSimple(OfferAll(s, maxEdges, cs[..n]).out, maxEdges, TermEdge(cs[n]));
    }
  }

  lemma PreparedIsSimple(files: seq<File>, p: Params, maxEdges: nat)
    ensures Simple(Linked(files, maxEdges), maxEdges) && Simple(Prepared(files, p, maxEdges).out, maxEdges)
  {
    assert PairsOf([]) == {};
    PushAllStaysSimple(NO_EDGES, maxEdges, LinkRequests(files));
    PushAllStaysSimple(Linked(files, maxEdges), maxEdges, ModelRequests(files));
  }

  /** At most one edge per unordered pair, none from a file to itself, at most `maxEdges` in all. */
  lemma EdgesAreSimple(files: seq<File>, p: Params, maxEdges: nat, cs: seq<Candidate>)
    requires Fits(cs, |files|)
    ensures Simple(Assembled(files, p, maxEdges, cs).out, maxEdges)
  {
    PreparedIsSimple(files, p, maxEdges);
    OfferAllStaysSimple(Prepared(files, p, maxEdges), maxEdges, cs);
  }

  // ------------------------------------------------ a smaller bound cuts off the end

  /** The state under the smaller bound `m`: the same until the bound is reached, a prefix from then on. */
  ghost predicate Truncates(small: Stage, large: Stage, m: nat) {
    if |large.out.edges| <= m then small == large else small.out.edges == large.out.edges[..m]
  }

  lemma OfferTruncates(small: Stage, large: Stage, m: nat, maxEdges: nat, c: Candidate)
    requires c.a < c.b < |small.capacity| == |large.capacity| && m <= maxEdges && Truncates(small, large, m)
    ensures Truncates(Offered(small, m, c), Offered(large, maxEdges, c), m)
  {
  }

  lemma PushTruncates(small: Stage, large: Stage, m: nat, maxEdges: nat, e: Edge)
    requires m <= maxEdges && Truncates(small, large, m)
    ensures Truncates(small.(out := Pushed(small.out, m, e)), large.(out := Pushed(large.out, maxEdges, e)), m)
  {
  }

  lemma {:induction false} PushAllTruncates(small: Stage, large: Stage, m: nat, maxEdges: nat, es: seq<Edge>)
    requires m <= maxEdges && Truncates(small, large, m)
    ensures Truncates(small.(out := PushAll(small.out, m, es)), large.(out := PushAll(large.out, maxEdges, es)), m)
  {
    if es == [] {
    } else {
      var n := |es| - 1;
      PushAllTruncates(small, large, m, maxEdges, es[..n]);
      PushTruncates(small.(out := PushAll(small.out, m, es[..n])), large.(out := PushAll(large.out, maxEdges, es[..n])),
                    m, maxEdges, es[n]);
    }
  }

  lemma {:induction false} OfferAllTruncates(small: Stage, large: Stage, m: nat, maxEdges: nat, cs: seq<Candidate>)
    requires Fits(cs, |small.capacity|) && |small.capacity| == |large.capacity|
    requires m <= maxEdges && Truncates(small, large, m)
    ensures Truncates(OfferAll(small, m, cs), OfferAll(large, maxEdges, cs), m)
  {
    if cs == [] {
    } else {
      var n := |cs| - 1;
      OfferAllTruncates(small, large, m, maxEdges, cs[..n]);
      OfferTruncates(OfferAll(small, m, cs[..n]), OfferAll(large, maxEdges, cs[..n]), m, maxEdges, cs[n]);
    }
  }

  /** A smaller bound on the edges only cuts edges off the end of the list, where the weakest sources are. */
  lemma SmallerBoundCutsTheEnd(files: seq<File>, p: Params, m: nat, maxEdges: nat, cs: seq<Candidate>)
    requires Fits(cs, |files|) && m <= maxEdges
    ensures var all := Assembled(files, p, maxEdges, cs).out.edges;
            Assembled(files, p, m, cs).out.edges == all[..Min(m, |all|)]
  {
    var capacity: seq<nat> := seq(|files|, _ => p.maxInferredPerFile);
    var empty := Stage(NO_EDGES, capacity);
    PushAllTruncates(empty, empty, m, maxEdges, LinkRequests(files));
    var small, large := empty.(out := Linked(files, m)), empty.(out := Linked(files, maxEdges));
    PushAllTruncates(small, large, m, maxEdges, ModelRequests(files));
    assert small.(out := PushAll(small.out, m, ModelRequests(files))) == Prepared(files, p, m);
    assert large.(out := PushAll(large.out, maxEdges, ModelRequests(files))) == Prepared(files, p, maxEdges);
    OfferAllTruncates(Prepared(files, p, m), Prepared(files, p, maxEdges), m, maxEdges, cs);
    var all := Assembled(files, p, maxEdges, cs).out.edges;
    assert |all| <= m ==> all[..|all|] == all;
  }

  // ------------------------------------------------ strongest source first

  function Strength(o: Origin): nat {
    match o case Links => 0 case Llm => 1 case SharedTerms => 2
  }

  ghost predicate StrongestFirst(edges: seq<Edge>, weakest: Origin) {
    && (forall i, j :: 0 <= i < j < |edges| ==> Strength(edges[i].origin) <= Strength(edges[j].origin))
    && forall i :: 0 <= i < |edges| ==> Strength(edges[i].origin) <= Strength(weakest)
  }

  ghost predicate AllFrom(es: seq<Edge>, o: Origin) {
    forall i :: 0 <= i < |es| ==> es[i].origin == o
  }

  lemma {:induction false} RequestsHaveOneOrigin(files: seq<File>)
    ensures AllFrom(LinkRequests(files), Links) && AllFrom(ModelRequests(files), Llm)
  {
    if files == [] {
    } else {
      var n := |files| - 1;
      RequestsHaveOneOrigin(files[..n]);
      LinksHaveOneOrigin(n, files[n].links);
      ModelEdgesHaveOneOrigin(n, files[n].llm);
    }
  }

  lemma {:induction false} LinksHaveOneOrigin(a: nat, links: seq<Option<nat>>)
    ensures AllFrom(LinksOf(a, links), Links)
  {
    if links == [] {
    } else {
      LinksHaveOneOrigin(a, links[..|links| - 1]);
    }
  }

  lemma {:induction false} ModelEdgesHaveOneOrigin(a: nat, llm: seq<LlmEdge>)
    ensures AllFrom(ModelEdgesOf(a, llm), Llm)
  {
    if llm == [] {
    } else {
      ModelEdgesHaveOneOrigin(a, llm[..|llm| - 1]);
    }
  }

  lemma {:induction false} PushAllKeepsOrder(o: Out, maxEdges: nat, es: seq<Edge>, origin: Origin)
    requires StrongestFirst(o.edges, origin) && AllFrom(es, origin)
    ensures StrongestFirst(PushAll(o, maxEdges, es).edges, origin)
  {
    if es == [] {
    } else {
      PushAllKeepsOrder(o, maxEdges, es[..|es| - 1], origin);
    }
  }

  lemma {:induction false} OfferAllKeepsOrder(s: Stage, maxEdges: nat, cs: seq<Candidate>)
    requires Fits(cs, |s.capacity|) && StrongestFirst(s.out.edges, SharedTerms)
    ensures StrongestFirst(OfferAll(s, maxEdges, cs).out.edges, SharedTerms)
  {
    if cs == [] {
    } else {
      OfferAllKeepsOrder(s, maxEdges, cs[..|cs| - 1]);
    }
  }

  /** Links come before model edges and those before term edges, so that a bound drops term edges first. */
  lemma StrongestSourcesComeFirst(files: seq<File>, p: Params, maxEdges: nat, cs: seq<Candidate>)
    requires Fits(cs, |files|)
    ensures StrongestFirst(Assembled(files, p, maxEdges, cs).out.edges, SharedTerms)
  {
    RequestsHaveOneOrigin(files);
    PushAllKeepsOrder(NO_EDGES, maxEdges, LinkRequests(files), Links);
    PushAllKeepsOrder(Linked(files, maxEdges), maxEdges, ModelRequests(files), Llm);
    OfferAllKeepsOrder(Prepared(files, p, maxEdges), maxEdges, cs);
  }

  // ------------------------------------------------ no request is forgotten

  lemma {:induction false} PushAllGrows(o: Out, maxEdges: nat, es: seq<Edge>)
    ensures var q := PushAll(o, maxEdges, es);
            |o.edges| <= |q.edges| && q.edges[..|o.edges|] == o.edges && o.pairs <= q.pairs
  {
    if es == [] {
    } else {
      PushAllGrows(o, maxEdges, es[..|es| - 1]);
    }
  }

  lemma {:induction false} PushAllJoins(o: Out, maxEdges: nat, es: seq<Edge>, e: Edge)
    requires e in es && e.source != e.target
    ensures PairOf(e) in PushAll(o, maxEdges, es).pairs || |PushAll(o, maxEdges, es).edges| >= maxEdges
  {
    var n := |es| - 1;
    if e == es[n] {
    } else {
      assert es == es[..n] + [es[n]];
      PushAllJoins(o, maxEdges, es[..n], e);
    }
  }

  lemma {:induction false} PushAllAddsRequests(o: Out, maxEdges: nat, es: seq<Edge>, e: Edge)
    requires e in PushAll(o, maxEdges, es).edges
    ensures e in o.edges || e in es
  {
    if es == [] {
    } else {
      var n := |es| - 1;
      assert es == es[..n] + [es[n]];
      if e in PushAll(o, maxEdges, es[..n]).edges {
        PushAllAddsRequests(o, maxEdges, es[..n], e);
      }
    }
  }

  lemma {:induction false} OfferAllGrows(s: Stage, maxEdges: nat, cs: seq<Candidate>)
    requires Fits(cs, |s.capacity|)
    ensures var q := OfferAll(s, maxEdges, cs).out;
            |s.out.edges| <= |q.edges| && q.edges[..|s.out.edges|] == s.out.edges && s.out.pairs <= q.pairs
  {
    if cs == [] {
    } else {
      OfferAllGrows(s, maxEdges, cs[..|cs| - 1]);
    }
  }

  lemma {:induction false} OfferAllAddsTermEdges(s: Stage, maxEdges: nat, cs: seq<Candidate>, e: Edge)
    requires Fits(cs, |s.capacity|) && e in OfferAll(s, maxEdges, cs).out.edges
    ensures e in s.out.edges || exists i :: 0 <= i < |cs| && e == TermEdge(cs[i])
  {
    if cs == [] {
    } else {
      var n := |cs| - 1;
      if e in OfferAll(s, maxEdges, cs[..n]).out.edges {
        OfferAllAddsTermEdges(s, maxEdges, cs[..n], e);
        if e !in s.out.edges {
          var i :| 0 <= i < n && e == TermEdge(cs[..n][i]);
          assert e == TermEdge(cs[i]);
        }
      } else {
        assert e == TermEdge(cs[n]);
      }
    }
  }

  /** Some file links to another file of the pair. */
  ghost predicate LinkJoins(files: seq<File>, pair: (nat, nat)) {
    exists e :: e in LinkRequests(files) && e.source != e.target && PairOf(e) == pair
  }

  ghost predicate Extracted(edges: seq<Edge>, pair: (nat, nat)) {
    exists e :: e in edges && PairOf(e) == pair && e.origin == Links
  }

  /** Every explicit edge stands for a link between two files. */
  lemma {:induction false} ExtractedOnlyForLinks(files: seq<File>, p: Params, maxEdges: nat, cs: seq<Candidate>,
      e: Edge)
    requires Fits(cs, |files|) && e in Assembled(files, p, maxEdges, cs).out.edges && e.origin == Links
    ensures e in LinkRequests(files) && e in Linked(files, maxEdges).edges
  {
    OfferAllAddsTermEdges(Prepared(files, p, maxEdges), maxEdges, cs, e);
    PushAllAddsRequests(Linked(files, maxEdges), maxEdges, ModelRequests(files), e);
    RequestsHaveOneOrigin(files);
    PushAllAddsRequests(NO_EDGES, maxEdges, LinkRequests(files), e);
  }

  /** If there is room, the pairs with an extracted edge are exactly the pairs some link joins. */
  lemma LinksAreExtracted(files: seq<File>, p: Params, maxEdges: nat, cs: seq<Candidate>, pair: (nat, nat))
    requires Fits(cs, |files|) && |Assembled(files, p, maxEdges, cs).out.edges| < maxEdges
    ensures Extracted(Assembled(files, p, maxEdges, cs).out.edges, pair) <==> LinkJoins(files, pair)
  {
    var linked, prepared := Linked(files, maxEdges), Prepared(files, p, maxEdges);
    var edges := Assembled(files, p, maxEdges, cs).out.edges;
    EdgesAreSimple(files, p, maxEdges, cs);
    PreparedIsSimple(files, p, maxEdges);
    PushAllGrows(linked, maxEdges, ModelRequests(files));
    OfferAllGrows(prepared, maxEdges, cs);
    assert edges[..|linked.edges|] == linked.edges;
    if LinkJoins(files, pair) {
      var e :| e in LinkRequests(files) && e.source != e.target && PairOf(e) == pair;
      PushAllJoins(NO_EDGES, maxEdges, LinkRequests(files), e);
      var i :| 0 <= i < |linked.edges| && PairOf(linked.edges[i]) == pair;
      LinkedEdgesAreLinks(files, maxEdges, linked.edges[i]);
      assert edges[i] == linked.edges[i];
    }
    if Extracted(edges, pair) {
      var e :| e in edges && PairOf(e) == pair && e.origin == Links;
      ExtractedOnlyForLinks(files, p, maxEdges, cs, e);
    }
  }

  lemma LinkedEdgesAreLinks(files: seq<File>, maxEdges: nat, e: Edge)
    requires e in Linked(files, maxEdges).edges
    ensures e.origin == Links
  {
    PushAllAddsRequests(NO_EDGES, maxEdges, LinkRequests(files), e);
    RequestsHaveOneOrigin(files);
  }

  // ------------------------------------------------ the term edges of a file

  function TermDegree(edges: seq<Edge>, a: nat): nat {
    if edges == [] then 0
    else
      var e := edges[|edges| - 1];
      TermDegree(edges[..|edges| - 1], a)
      + if e.origin == SharedTerms && (e.source == a || e.target == a) then 1 else 0
  }

  /** What a file has left is its bound less its term edges. */
  ghost predicate Budgeted(s: Stage, bound: nat) {
    forall a :: 0 <= a < |s.capacity| ==> s.capacity[a] + TermDegree(s.out.edges, a) == bound
  }

  lemma {:induction false} NoTermEdges(edges: seq<Edge>, a: nat)
    requires forall i :: 0 <= i < |edges| ==> edges[i].origin != SharedTerms
    ensures TermDegree(edges, a) == 0
  {
    if edges == [] {
    } else {
      NoTermEdges(edges[..|edges| - 1], a);
    }
  }

  lemma PreparedIsBudgeted(files: seq<File>, p: Params, maxEdges: nat)
    ensures Budgeted(Prepared(files, p, maxEdges), p.maxInferredPerFile)
  {
    RequestsHaveOneOrigin(files);
    PushAllKeepsOrder(NO_EDGES, maxEdges, LinkRequests(files), Links);
    PushAllKeepsOrder(Linked(files, maxEdges), maxEdges, ModelRequests(files), Llm);
    forall a | 0 <= a < |files|
      ensures TermDegree(Prepared(files, p, maxEdges).out.edges, a) == 0
    {
      NoTermEdges(Prepared(files, p, maxEdges).out.edges, a);
    }
  }

  lemma OfferStaysBudgeted(s: Stage, maxEdges: nat, c: Candidate, bound: nat)
    requires c.a < c.b < |s.capacity| && Budgeted(s, bound)
    ensures Budgeted(Offered(s, maxEdges, c), bound)
  {
    if Open(s, maxEdges, c) {
      var q := Offered(s, maxEdges, c);
      assert q.out.edges[..|q.out.edges| - 1] == s.out.edges;
    }
  }

  lemma {:induction false} OfferAllStaysBudgeted(s: Stage, maxEdges: nat, cs: seq<Candidate>, bound: nat)
    requires Fits(cs, |s.capacity|) && Budgeted(s, bound)
    ensures Budgeted(OfferAll(s, maxEdges, cs), bound)
  {
    if cs == [] {
    } else {
      OfferAllStaysBudgeted(s, maxEdges, cs[..|cs| - 1], bound);
      OfferStaysBudgeted(OfferAll(s, maxEdges, cs[..|cs| - 1]), maxEdges, cs[|cs| - 1], bound);
    }
  }

  /** No file gets more than `maxInferredPerFile` term edges. */
  lemma {:induction false} TermEdgesAreBounded(files: seq<File>, p: Params, maxEdges: nat, cs: seq<Candidate>, a: nat)
    requires Fits(cs, |files|) && a < |files|
    ensures TermDegree(Assembled(files, p, maxEdges, cs).out.edges, a) <= p.maxInferredPerFile
  {
    PreparedIsBudgeted(files, p, maxEdges);
    OfferAllStaysBudgeted(Prepared(files, p, maxEdges), maxEdges, cs, p.maxInferredPerFile);
  }

  /** The edges after the links, the model edges and the best `k` candidates. */
  function EdgesUpTo(files: seq<File>, p: Params, maxEdges: nat, cs: seq<Candidate>, k: nat): Out
    requires Fits(cs, |files|) && k <= |cs|
  {
    OfferAll(Prepared(files, p, maxEdges), maxEdges, cs[..k]).out
  }

  /**
   Candidate `k` becomes an edge exactly when its pair is not joined, neither file is exhausted and
   there is room by then.
   */
  lemma CandidateIsTakenExactlyWhen(files: seq<File>, p: Params, maxEdges: nat, cs: seq<Candidate>, k: nat)
    requires Fits(cs, |files|) && k < |cs|
    ensures
      var before, c := EdgesUpTo(files, p, maxEdges, cs, k), cs[k];
      var taken :=
        && (c.a, c.b) !in PairsOf(before.edges)
        && TermDegree(before.edges, c.a) < p.maxInferredPerFile
        && TermDegree(before.edges, c.b) < p.maxInferredPerFile
        && |before.edges| < maxEdges;
      EdgesUpTo(files, p, maxEdges, cs, k + 1).edges == before.edges + if taken then [TermEdge(c)] else []
  {
    var s := OfferAll(Prepared(files, p, maxEdges), maxEdges, cs[..k]);
    assert cs[..k + 1][..k] == cs[..k];
    PreparedIsBudgeted(files, p, maxEdges);
    OfferAllStaysBudgeted(Prepared(files, p, maxEdges), maxEdges, cs[..k], p.maxInferredPerFile);
    PreparedIsSimple(files, p, maxEdges);
    OfferAllStaysSimple(Prepared(files, p, maxEdges), maxEdges, cs[..k]);
    assert s.capacity[cs[k].a] + TermDegree(s.out.edges, cs[k].a) == p.maxInferredPerFile;
    assert s.capacity[cs[k].b] + TermDegree(s.out.edges, cs[k].b) == p.maxInferredPerFile;
    assert PairOf(TermEdge(cs[k])) == (cs[k].a, cs[k].b);
  }

  lemma {:induction false} TermDegreeGrows(edges: seq<Edge>, n: nat, a: nat)
    requires n <= |edges|
    ensures TermDegree(edges[..n], a) <= TermDegree(edges, a)
  {
    if n < |edges| {
      TermDegreeGrows(edges[..|edges| - 1], n, a);
      assert edges[..|edges| - 1][..n] == edges[..n];
    } else {
      assert edges[..n] == edges;
    }
  }

  lemma {:induction false} OfferedWithin(s: Stage, maxEdges: nat, cs: seq<Candidate>, k: nat)
    requires Fits(cs, |s.capacity|) && k <= |cs|
    ensures OfferAll(s, maxEdges, cs) == OfferAll(OfferAll(s, maxEdges, cs[..k]), maxEdges, cs[k..])
  {
    if k == |cs| {
      assert cs[..k] == cs && cs[k..] == [];
    } else {
      var n := |cs| - 1;
      OfferedWithin(s, maxEdges, cs[..n], k);
      assert cs[..n][..k] == cs[..k];
      assert cs[k..][..n - k] == cs[..n][k..];
    }
  }

  /** The candidate needs no edge any more: its pair is joined, one of its files is exhausted, or the list is full. */
  ghost predicate DealtWith(edges: seq<Edge>, c: Candidate, p: Params, maxEdges: nat) {
    || (c.a, c.b) in PairsOf(edges)
    || TermDegree(edges, c.a) >= p.maxInferredPerFile || TermDegree(edges, c.b) >= p.maxInferredPerFile
    || |edges| >= maxEdges
  }

  lemma DealtWithInTurn(files: seq<File>, p: Params, maxEdges: nat, cs: seq<Candidate>, k: nat)
    requires Fits(cs, |files|) && k < |cs|
    ensures DealtWith(EdgesUpTo(files, p, maxEdges, cs, k + 1).edges, cs[k], p, maxEdges)
  {
    var before := EdgesUpTo(files, p, maxEdges, cs, k).edges;
    CandidateIsTakenExactlyWhen(files, p, maxEdges, cs, k);
    hide EdgesUpTo;
    assert PairOf(TermEdge(cs[k])) == (cs[k].a, cs[k].b);
    PairOfLast(before, TermEdge(cs[k]));
    assert before + [] == before;
  }

  lemma DealtWithForGood(edges: seq<Edge>, n: nat, c: Candidate, p: Params, maxEdges: nat)
    requires n <= |edges| && DealtWith(edges[..n], c, p, maxEdges)
    ensures DealtWith(edges, c, p, maxEdges)
  {
    TermDegreeGrows(edges, n, c.a);
    TermDegreeGrows(edges, n, c.b);
    PairsGrow(edges, n);
  }

  /**
   The edge list is as full as its bounds allow: in the end every candidate pair is joined, or one of
   its files has all the term edges it may have, or the list is full.
   */
  lemma NoCandidateIsForgotten(files: seq<File>, p: Params, maxEdges: nat, cs: seq<Candidate>, k: nat)
    requires Fits(cs, |files|) && k < |cs|
    ensures DealtWith(Assembled(files, p, maxEdges, cs).out.edges, cs[k], p, maxEdges)
  {
    var s := Prepared(files, p, maxEdges);
    var stage := OfferAll(s, maxEdges, cs[..k + 1]);
    OfferedWithin(s, maxEdges, cs, k + 1);
    OfferAllGrows(stage, maxEdges, cs[k + 1..]);
    DealtWithInTurn(files, p, maxEdges, cs, k);
    hide DealtWith;
    DealtWithForGood(Assembled(files, p, maxEdges, cs).out.edges, |stage.out.edges|, cs[k], p, maxEdges);
  }

  lemma PairsGrow(edges: seq<Edge>, n: nat)
    requires n <= |edges|
    ensures PairsOf(edges[..n]) <= PairsOf(edges)
  {
    forall pair | pair in PairsOf(edges[..n])
      ensures pair in PairsOf(edges)
    {
      var i :| 0 <= i < n && PairOf(edges[..n][i]) == pair;
      assert edges[i] == edges[..n][i];
    }
  }

  lemma PairOfLast(edges: seq<Edge>, e: Edge)
    ensures PairOf(e) in PairsOf(edges + [e]) && PairsOf(edges) <= PairsOf(edges + [e])
  {
    assert (edges + [e])[|edges|] == e;
    assert (edges + [e])[..|edges|] == edges;
    PairsGrow(edges + [e], |edges|);
  }

  /** Two runs on the same files give the same edges, whatever order the hash maps are read in. */
  lemma BuildIsDeterministic(files: seq<File>, p: Params, cs: seq<Candidate>, ds: seq<Candidate>)
    requires IsRanking(TermLists(files), p, cs) && IsRanking(TermLists(files), p, ds)
    requires Fits(cs, |files|) && Fits(ds, |files|)
    ensures Assembled(files, p, p.maxEdges, cs) == Assembled(files, p, p.maxEdges, ds)
  {
    RankingIsUnique(TermLists(files), p, cs, ds);
  }
}
