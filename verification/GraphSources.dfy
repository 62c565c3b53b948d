/**
 Where edges come from: every edge stands for a link, a model edge or a candidate, and none of those is
 passed over.
 */
module GraphSources {
  import opened Common
  import opened Terms
  import opened Graph
  import opened GraphEdges

  /** The edge a link asks for. */
  ghost predicate FromLink(files: seq<File>, e: Edge) {
    && e.source < |files| && Some(e.target) in files[e.source].links
    && e.relation == "links_to" && e.confidence == "EXTRACTED" && e.origin == Links
  }

  /** The edge the language model asks for, under the name it gave it. */
  ghost predicate FromModel(files: seq<File>, e: Edge) {
    && e.source < |files| && LlmEdge(Some(e.target), e.relation) in files[e.source].llm
    && e.confidence == "INFERRED" && e.origin == Llm
  }

  /** The edge a candidate asks for; its relation tells whether a tag is shared. */
  ghost predicate FromCandidate(cs: seq<Candidate>, e: Edge) {
    && e.confidence == "INFERRED" && e.origin == SharedTerms
    && exists i :: 0 <= i < |cs| && cs[i].a == e.source && cs[i].b == e.target
                   && e.relation == if cs[i].tag then "shares_tag" else "shares_topic"
  }

  lemma {:induction false} LinksOfOne(a: nat, links: seq<Option<nat>>, e: Edge)
    ensures e in LinksOf(a, links) <==>
              && e.source == a && Some(e.target) in links
              && e.relation == "links_to" && e.confidence == "EXTRACTED" && e.origin == Links
  {
    if links == [] {
    } else {
      var n := |links| - 1;
      LinksOfOne(a, links[..n], e);
      assert links == links[..n] + [links[n]];
    }
  }

  lemma {:induction false} LinkRequestsAreTheLinks(files: seq<File>, e: Edge)
    ensures e in LinkRequests(files) <==> FromLink(files, e)
  {
    if files == [] {
    } else {
      var n := |files| - 1;
      LinkRequestsAreTheLinks(files[..n], e);
      LinksOfOne(n, files[n].links, e);
      assert e.source < n ==> files[..n][e.source] == files[e.source];
    }
  }

  lemma {:induction false} ModelEdgesOfOne(a: nat, llm: seq<LlmEdge>, e: Edge)
    ensures e in ModelEdgesOf(a, llm) <==>
              e.source == a && LlmEdge(Some(e.target), e.relation) in llm && e.confidence == "INFERRED"
                  && e.origin == Llm
  {
    if llm == [] {
    } else {
      var n := |llm| - 1;
      ModelEdgesOfOne(a, llm[..n], e);
      assert llm == llm[..n] + [llm[n]];
    }
  }

  lemma {:induction false} ModelRequestsAreTheModelEdges(files: seq<File>, e: Edge)
    ensures e in ModelRequests(files) <==> FromModel(files, e)
  {
    if files == [] {
    } else {
      var n := |files| - 1;
      ModelRequestsAreTheModelEdges(files[..n], e);
      ModelEdgesOfOne(n, files[n].llm, e);
      assert e.source < n ==> files[..n][e.source] == files[e.source];
    }
  }

  /** Every edge of the list stands for a link, a model edge or a candidate, and says which. */
  lemma {:induction false} EveryEdgeHasASource(files: seq<File>, p: Params, maxEdges: nat, cs: seq<Candidate>, e: Edge)
    requires Fits(cs, |files|) && e in Assembled(files, p, maxEdges, cs).out.edges
    ensures FromLink(files, e) || FromModel(files, e) || FromCandidate(cs, e)
  {
    OfferAllAddsTermEdges(Prepared(files, p, maxEdges), maxEdges, cs, e);
    if e in Prepared(files, p, maxEdges).out.edges {
      PushAllAddsRequests(Linked(files, maxEdges), maxEdges, ModelRequests(files), e);
      LinkRequestsAreTheLinks(files, e);
      ModelRequestsAreTheModelEdges(files, e);
      if e !in ModelRequests(files) {
        PushAllAddsRequests(NO_EDGES, maxEdges, LinkRequests(files), e);
      }
    }
  }

  // ------------------------------------------------ which pairs are joined by what

  /** One of the two files links to the other. */
  ghost predicate Link(files: seq<File>, x: nat, y: nat) {
    (x < |files| && Some(y) in files[x].links) || (y < |files| && Some(x) in files[y].links)
  }

  /** The language model relates one of the two files to the other. */
  ghost predicate Relates(files: seq<File>, x: nat, y: nat) {
    || (x < |files| && exists r :: LlmEdge(Some(y), r) in files[x].llm)
    || (y < |files| && exists r :: LlmEdge(Some(x), r) in files[y].llm)
  }

  ghost predicate Joined(edges: seq<Edge>, x: nat, y: nat, origin: Origin) {
    exists e :: e in edges && PairOf(e) == (x, y) && e.origin == origin
  }

  lemma {:induction false} LinkJoinsWhenLinked(files: seq<File>, x: nat, y: nat)
    requires x < y
    ensures LinkJoins(files, (x, y)) <==> Link(files, x, y)
  {
    if LinkJoins(files, (x, y)) {
      var e :| e in LinkRequests(files) && e.source != e.target && PairOf(e) == (x, y);
      LinkRequestsAreTheLinks(files, e);
    }
    if Link(files, x, y) {
      var forward := x < |files| && Some(y) in files[x].links;
      var e := if forward then Edge(x, y, "links_to", "EXTRACTED", Links)
          else Edge(y, x, "links_to", "EXTRACTED", Links);
      LinkRequestsAreTheLinks(files, e);
      assert PairOf(e) == (x, y);
    }
  }

  /** If the list has room left, two files have an extracted edge exactly if one links to the other. */
  lemma {:induction false} ExtractedExactlyForLinks(
      files: seq<File>, p: Params, maxEdges: nat, cs: seq<Candidate>, x: nat, y: nat)
    requires Fits(cs, |files|) && |Assembled(files, p, maxEdges, cs).out.edges| < maxEdges && x < y
    ensures Joined(Assembled(files, p, maxEdges, cs).out.edges, x, y, Links) <==> Link(files, x, y)
  {
    hide Assembled, LinkJoins, Link;
    LinksAreExtracted(files, p, maxEdges, cs, (x, y));
    LinkJoinsWhenLinked(files, x, y);
  }

  lemma PairHasOneEdge(edges: seq<Edge>, maxEdges: nat, pairs: set<(nat, nat)>, d: Edge, e: Edge)
    requires Simple(Out(edges, pairs), maxEdges) && d in edges && e in edges && PairOf(d) == PairOf(e)
    ensures d == e
  {
    var i :| 0 <= i < |edges| && edges[i] == d;
    var j :| 0 <= j < |edges| && edges[j] == e;
    assert PairOf(edges[i]) == PairOf(edges[j]);
  }

  lemma {:induction false} RelatedPairIsJoined(files: seq<File>, p: Params, maxEdges: nat, cs: seq<Candidate>, x: nat,
      y: nat)
    returns (e: Edge)
    requires Fits(cs, |files|) && |Assembled(files, p, maxEdges, cs).out.edges| < maxEdges && x < y
             && Relates(files, x, y)
    ensures e in Prepared(files, p, maxEdges).out.edges && e in Assembled(files, p, maxEdges, cs).out.edges
    ensures PairOf(e) == (x, y)
  {
    var linked, prepared := Linked(files, maxEdges), Prepared(files, p, maxEdges);
    var edges := Assembled(files, p, maxEdges, cs).out.edges;
    var q: Edge;
    if x < |files| && exists r :: LlmEdge(Some(y), r) in files[x].llm {
      var r :| LlmEdge(Some(y), r) in files[x].llm;
      q := Edge(x, y, r, "INFERRED", Llm);
    } else {
      var r :| LlmEdge(Some(x), r) in files[y].llm;
      q := Edge(y, x, r, "INFERRED", Llm);
    }
    assert PairOf(q) == (x, y);
    ModelRequestsAreTheModelEdges(files, q);
    OfferAllGrows(prepared, maxEdges, cs);
    PushAllJoins(linked, maxEdges, ModelRequests(files), q);
    PreparedIsSimple(files, p, maxEdges);
    var i :| 0 <= i < |prepared.out.edges| && PairOf(prepared.out.edges[i]) == (x, y);
    e := prepared.out.edges[i];
    assert edges[i] == edges[..|prepared.out.edges|][i];
  }

  /**
   If the list has room left, two files have an edge of the language model exactly if the model
   relates them and no link joins them already.
   */
  lemma {:induction false} InferredExactlyWhenRelated(
      files: seq<File>, p: Params, maxEdges: nat, cs: seq<Candidate>, x: nat, y: nat)
    requires Fits(cs, |files|) && |Assembled(files, p, maxEdges, cs).out.edges| < maxEdges && x < y
    ensures Joined(Assembled(files, p, maxEdges, cs).out.edges, x, y, Llm)
            <==> Relates(files, x, y) && !Link(files, x, y)
  {
    hide Assembled, Simple, Link;
    var out := Assembled(files, p, maxEdges, cs).out;
    EdgesAreSimple(files, p, maxEdges, cs);
    ExtractedExactlyForLinks(files, p, maxEdges, cs, x, y);
    if Joined(out.edges, x, y, Llm) {
      var e :| e in out.edges && PairOf(e) == (x, y) && e.origin == Llm;
      EveryEdgeHasASource(files, p, maxEdges, cs, e);
      assert FromModel(files, e);
      if Link(files, x, y) {
        var d :| d in out.edges && PairOf(d) == (x, y) && d.origin == Links;
        PairHasOneEdge(out.edges, maxEdges, out.pairs, d, e);
      }
    }
    if Relates(files, x, y) && !Link(files, x, y) {
      var e := RelatedPairIsJoined(files, p, maxEdges, cs, x, y);
      PreparedEdgeIsNoTermEdge(files, p, maxEdges, e);
      assert e.origin == Llm;
    }
  }

  lemma {:induction false} PreparedEdgeIsNoTermEdge(files: seq<File>, p: Params, maxEdges: nat, e: Edge)
    requires e in Prepared(files, p, maxEdges).out.edges
    ensures e.origin != SharedTerms
  {
    PushAllAddsRequests(Linked(files, maxEdges), maxEdges, ModelRequests(files), e);
    RequestsHaveOneOrigin(files);
    if e !in ModelRequests(files) {
      PushAllAddsRequests(NO_EDGES, maxEdges, LinkRequests(files), e);
    }
  }

  // ------------------------------------------------ in which order they are asked for

  /** The targets of the edges from one file, in order. */
  ghost function TargetsFrom(es: seq<Edge>, a: nat): seq<nat> {
    if es == [] then []
    else
      var e := es[|es| - 1];
      TargetsFrom(es[..|es| - 1], a) + if e.source == a then [e.target] else []
  }

  /** The links that were resolved, in order. */
  ghost function Present(links: seq<Option<nat>>): seq<nat> {
    if links == [] then []
    else Present(links[..|links| - 1]) + if links[|links| - 1].Some? then [links[|links| - 1].value] else []
  }

  ghost function PresentTargets(llm: seq<LlmEdge>): seq<nat> {
    if llm == [] then []
    else
      var last := llm[|llm| - 1].target;
      PresentTargets(llm[..|llm| - 1]) + if last.Some? then [last.value] else []
  }

  ghost predicate SourcesAscend(es: seq<Edge>, bound: nat) {
    && (forall i, j :: 0 <= i < j < |es| ==> es[i].source <= es[j].source)
    && forall i :: 0 <= i < |es| ==> es[i].source < bound
  }

  lemma {:induction false} TargetsAppend(es: seq<Edge>, more: seq<Edge>, a: nat)
    ensures TargetsFrom(es + more, a) == TargetsFrom(es, a) + TargetsFrom(more, a)
  {
    if more == [] {
      assert es + more == es;
    } else {
      var n := |more| - 1;
      assert (es + more)[..|es + more| - 1] == es + more[..n];
      TargetsAppend(es, more[..n], a);
    }
  }

  lemma {:induction false} LinksInOrder(b: nat, links: seq<Option<nat>>, a: nat)
    ensures TargetsFrom(LinksOf(b, links), a) == if a == b then Present(links) else []
    ensures forall i :: 0 <= i < |LinksOf(b, links)| ==> LinksOf(b, links)[i].source == b
  {
    if links == [] {
    } else {
      var n := |links| - 1;
      LinksInOrder(b, links[..n], a);
      if links[n].Some? {
        var es := LinksOf(b, links[..n]);
        assert LinksOf(b, links)[..|es|] == es;
      } else {
        assert LinksOf(b, links) == LinksOf(b, links[..n]);
      }
    }
  }

  lemma {:induction false} ModelEdgesInOrder(b: nat, llm: seq<LlmEdge>, a: nat)
    ensures TargetsFrom(ModelEdgesOf(b, llm), a) == if a == b then PresentTargets(llm) else []
    ensures forall i :: 0 <= i < |ModelEdgesOf(b, llm)| ==> ModelEdgesOf(b, llm)[i].source == b
  {
    if llm == [] {
    } else {
      var n := |llm| - 1;
      ModelEdgesInOrder(b, llm[..n], a);
      if llm[n].target.Some? {
        var es := ModelEdgesOf(b, llm[..n]);
        assert ModelEdgesOf(b, llm)[..|es|] == es;
      } else {
        assert ModelEdgesOf(b, llm) == ModelEdgesOf(b, llm[..n]);
      }
    }
  }

  lemma AscendAppend(es: seq<Edge>, more: seq<Edge>, n: nat)
    requires SourcesAscend(es, n) && forall i :: 0 <= i < |more| ==> more[i].source == n
    ensures SourcesAscend(es + more, n + 1)
  {
  }

  lemma {:induction false} LinkRequestsInOrder(files: seq<File>, a: nat)
    ensures SourcesAscend(LinkRequests(files), |files|)
    ensures TargetsFrom(LinkRequests(files), a) == if a < |files| then Present(files[a].links) else []
  {
    hide TargetsFrom, LinksOf, Present, SourcesAscend;
    if files == [] {
      NoTargets(a);
    } else {
      var n := |files| - 1;
      LinkRequestsInOrder(files[..n], a);
      LinksInOrder(n, files[n].links, a);
      TargetsAppend(LinkRequests(files[..n]), LinksOf(n, files[n].links), a);
      AscendAppend(LinkRequests(files[..n]), LinksOf(n, files[n].links), n);
    }
  }

  lemma {:induction false} ModelRequestsInOrder(files: seq<File>, a: nat)
    ensures SourcesAscend(ModelRequests(files), |files|)
    ensures TargetsFrom(ModelRequests(files), a) == if a < |files| then PresentTargets(files[a].llm) else []
  {
    hide TargetsFrom, ModelEdgesOf, PresentTargets, SourcesAscend;
    if files == [] {
      NoTargets(a);
    } else {
      var n := |files| - 1;
      ModelRequestsInOrder(files[..n], a);
      ModelEdgesInOrder(n, files[n].llm, a);
      TargetsAppend(ModelRequests(files[..n]), ModelEdgesOf(n, files[n].llm), a);
      AscendAppend(ModelRequests(files[..n]), ModelEdgesOf(n, files[n].llm), n);
    }
  }

  /** Requests are made file by file, and for each file in the order of its links and model edges. */
  lemma {:induction false} RequestsComeInOrder(files: seq<File>, a: nat)
    ensures SourcesAscend(LinkRequests(files), |files|) && SourcesAscend(ModelRequests(files), |files|)
    ensures TargetsFrom(LinkRequests(files), a) == if a < |files| then Present(files[a].links) else []
    ensures TargetsFrom(ModelRequests(files), a) == if a < |files| then PresentTargets(files[a].llm) else []
  {
    LinkRequestsInOrder(files, a);
    ModelRequestsInOrder(files, a);
  }

  lemma {:induction false} NoTargets(a: nat)
    ensures TargetsFrom([], a) == [] && SourcesAscend([], 0)
  {
  }
}
