/**
 Edges between files: explicit links first, then links found by the language model, then pairs
 that share rare terms, with one edge per pair, a bound on all edges and a bound on the term edges of
 every file.

 A file is its resolved links, its resolved model edges and its terms; nodes are indices.
 */
module Graph {
  import opened Common
  import opened Terms

  datatype Origin = Links | Llm | SharedTerms

  datatype Edge = Edge(source: nat, target: nat, relation: string, confidence: string, origin: Origin)

  datatype LlmEdge = LlmEdge(target: Option<nat>, relation: string)

  datatype File = File(links: seq<Option<nat>>, llm: seq<LlmEdge>, terms: seq<string>)

  function PairOf(e: Edge): (nat, nat) {
    (Min(e.source, e.target), Max(e.source, e.target))
  }

  /** The edges so far and the pairs they join. */
  datatype Out = Out(edges: seq<Edge>, pairs: set<(nat, nat)>)

  const NO_EDGES: Out := Out([], {})

  predicate Takes(o: Out, maxEdges: nat, e: Edge) {
    e.source != e.target && |o.edges| < maxEdges && PairOf(e) !in o.pairs
  }

  function Pushed(o: Out, maxEdges: nat, e: Edge): Out {
    if Takes(o, maxEdges, e) then Out(o.edges + [e], o.pairs + {PairOf(e)}) else o
  }

  function PushAll(o: Out, maxEdges: nat, es: seq<Edge>): Out {
    if es == [] then o else Pushed(PushAll(o, maxEdges, es[..|es| - 1]), maxEdges, es[|es| - 1])
  }

  // ------------------------------------------------ what is asked for

  function LinksOf(a: nat, links: seq<Option<nat>>): seq<Edge> {
    if links == [] then []
    else
      var last := links[|links| - 1];
      LinksOf(a, links[..|links| - 1])
      + if last.Some? then [Edge(a, last.value, "links_to", "EXTRACTED", Links)] else []
  }

  function LinkRequests(files: seq<File>): seq<Edge> {
    if files == [] then []
    else LinkRequests(files[..|files| - 1]) + LinksOf(|files| - 1, files[|files| - 1].links)
  }

  function ModelEdgesOf(a: nat, llm: seq<LlmEdge>): seq<Edge> {
    if llm == [] then []
    else
      var last := llm[|llm| - 1];
      ModelEdgesOf(a, llm[..|llm| - 1])
      + if last.target.Some? then [Edge(a, last.target.value, last.relation, "INFERRED", Llm)] else []
  }

  function ModelRequests(files: seq<File>): seq<Edge> {
    if files == [] then []
    else ModelRequests(files[..|files| - 1]) + ModelEdgesOf(|files| - 1, files[|files| - 1].llm)
  }

  function TermEdge(c: Candidate): Edge {
    Edge(c.a, c.b, if c.tag then "shares_tag" else "shares_topic", "INFERRED", SharedTerms)
  }

  function TermLists(files: seq<File>): (ts: seq<seq<string>>)
    ensures |ts| == |files| && forall i :: 0 <= i < |files| ==> ts[i] == files[i].terms
  {
    seq(|files|, i requires 0 <= i < |files| => files[i].terms)
  }

  // ------------------------------------------------ the term edges

  /** Edges so far and how many term edges every file may still get. */
  datatype Stage = Stage(out: Out, capacity: seq<nat>)

  predicate Fits(cs: seq<Candidate>, n: nat) {
    forall i :: 0 <= i < |cs| ==> cs[i].a < cs[i].b < n
  }

  predicate Open(s: Stage, maxEdges: nat, c: Candidate)
    requires c.a < c.b < |s.capacity|
  {
    s.capacity[c.a] > 0 && s.capacity[c.b] > 0 && Takes(s.out, maxEdges, TermEdge(c))
  }

  function Offered(s: Stage, maxEdges: nat, c: Candidate): (r: Stage)
    requires c.a < c.b < |s.capacity|
    ensures |r.capacity| == |s.capacity|
  {
    if Open(s, maxEdges, c) then
      Stage(Pushed(s.out, maxEdges, TermEdge(c)),
            s.capacity[c.a := s.capacity[c.a] - 1][c.b := s.capacity[c.b] - 1])
    else s
  }

  function OfferAll(s: Stage, maxEdges: nat, cs: seq<Candidate>): (r: Stage)
    requires Fits(cs, |s.capacity|)
    ensures |r.capacity| == |s.capacity|
  {
    if cs == [] then s else Offered(OfferAll(s, maxEdges, cs[..|cs| - 1]), maxEdges, cs[|cs| - 1])
  }

  function Linked(files: seq<File>, maxEdges: nat): Out {
    PushAll(NO_EDGES, maxEdges, LinkRequests(files))
  }

  function Prepared(files: seq<File>, p: Params, maxEdges: nat): (s: Stage)
    ensures |s.capacity| == |files|
  {
    Stage(PushAll(Linked(files, maxEdges), maxEdges, ModelRequests(files)), seq(|files|, _ => p.maxInferredPerFile))
  }

  function Assembled(files: seq<File>, p: Params, maxEdges: nat, cs: seq<Candidate>): Stage
    requires Fits(cs, |files|)
  {
    OfferAll(Prepared(files, p, maxEdges), maxEdges, cs)
  }

  /** The edge list with the pairs it joins, as the closure of the builder captures them. */
  class EdgeList {
    var edges: seq<Edge>
    var pairs: set<(nat, nat)>
    const maxEdges: nat

    function View(): Out
      reads this
    {
      Out(edges, pairs)
    }

    constructor (maxEdges: nat)
      ensures View() == NO_EDGES && this.maxEdges == maxEdges
    {
      this.maxEdges := maxEdges;
      edges, pairs := [], {};
    }

    method Push(e: Edge) returns (added: bool)
      modifies this
      ensures added == Takes(old(View()), maxEdges, e)
      ensures View() == Pushed(old(View()), maxEdges, e)
    {
      var pair := (Min(e.source, e.target), Max(e.source, e.target));
      if e.source == e.target || |edges| >= maxEdges || pair in pairs {
        return false;
      }
      pairs := pairs + {pair};
      edges := edges + [e];
      return true;
    }

    method PushLinks(files: seq<File>)
      modifies this
      ensures View() == PushAll(old(View()), maxEdges, LinkRequests(files))
    {
      ghost var start := View();
      for a := 0 to |files|
        invariant View() == PushAll(start, maxEdges, LinkRequests(files[..a]))
      {
        assert files[..a + 1][..a] == files[..a];
        ghost var here := View();
        var links := files[a].links;
        for i := 0 to |links|
          invariant View() == PushAll(here, maxEdges, LinksOf(a, links[..i]))
        {
          assert links[..i + 1][..i] == links[..i];
          if links[i].Some? {
            var e := Edge(a, links[i].value, "links_to", "EXTRACTED", Links);
            PushOneMore(here, maxEdges, LinksOf(a, links[..i]), e);
            var _ := Push(e);
          } else {
            assert LinksOf(a, links[..i + 1]) == LinksOf(a, links[..i]);
          }
        }
        assert links[..|links|] == links;
        PushMore(start, maxEdges, LinkRequests(files[..a]), LinksOf(a, links));
      }
      assert files[..|files|] == files;
    }

    method PushModelEdges(files: seq<File>)
      modifies this
      ensures View() == PushAll(old(View()), maxEdges, ModelRequests(files))
    {
      ghost var start := View();
      for a := 0 to |files|
        invariant View() == PushAll(start, maxEdges, ModelRequests(files[..a]))
      {
        assert files[..a + 1][..a] == files[..a];
        ghost var here := View();
        var llm := files[a].llm;
        for i := 0 to |llm|
          invariant View() == PushAll(here, maxEdges, ModelEdgesOf(a, llm[..i]))
        {
          assert llm[..i + 1][..i] == llm[..i];
          if llm[i].target.Some? {
            var e := Edge(a, llm[i].target.value, llm[i].relation, "INFERRED", Llm);
            PushOneMore(here, maxEdges, ModelEdgesOf(a, llm[..i]), e);
            var _ := Push(e);
          } else {
            assert ModelEdgesOf(a, llm[..i + 1]) == ModelEdgesOf(a, llm[..i]);
          }
        }
        assert llm[..|llm|] == llm;
        PushMore(start, maxEdges, ModelRequests(files[..a]), ModelEdgesOf(a, llm));
      }
      assert files[..|files|] == files;
    }

    method PushTermEdges(cs: seq<Candidate>, capacity: array<nat>)
      requires Fits(cs, capacity.Length)
      modifies this, capacity
      ensures Stage(View(), capacity[..]) == OfferAll(Stage(old(View()), old(capacity[..])), maxEdges, cs)
    {
      ghost var start := Stage(View(), capacity[..]);
      for k := 0 to |cs|
        invariant Stage(View(), capacity[..]) == OfferAll(start, maxEdges, cs[..k])
      {
        assert cs[..k + 1][..k] == cs[..k];
        var c := cs[k];
        ghost var before := Stage(View(), capacity[..]);
        if capacity[c.a] == 0 || capacity[c.b] == 0 {
          continue;
        }
        var added := Push(TermEdge(c));
        if added {
          capacity[c.a] := capacity[c.a] - 1;
          capacity[c.b] := capacity[c.b] - 1;
        }
        assert Stage(View(), capacity[..]) == Offered(before, maxEdges, c);
      }
      assert cs[..|cs|] == cs;
    }
  }

  method Build(files: seq<File>, p: Params) returns (edges: seq<Edge>, cs: seq<Candidate>)
    requires DuplicateFree(TermLists(files))
    ensures IsRanking(TermLists(files), p, cs) && Fits(cs, |files|)
    ensures edges == Assembled(files, p, p.maxEdges, cs).out.edges
  {
    var list := new EdgeList(p.maxEdges);
    list.PushLinks(files);
    list.PushModelEdges(files);
    cs := TermCandidates(TermLists(files), p);
    forall i | 0 <= i < |cs|
      ensures cs[i].a < cs[i].b < |files|
    {
      assert cs[i] in cs;
    }
    var capacity := new nat[|files|](_ => p.maxInferredPerFile);
    assert capacity[..] == seq(|files|, _ => p.maxInferredPerFile);
    list.PushTermEdges(cs, capacity);
    edges := list.edges;
  }

  lemma {:induction false} PushOneMore(o: Out, maxEdges: nat, es: seq<Edge>, e: Edge)
    ensures PushAll(o, maxEdges, es + [e]) == Pushed(PushAll(o, maxEdges, es), maxEdges, e)
  {
    assert (es + [e])[..|es|] == es;
  }

  lemma {:induction false} PushMore(o: Out, maxEdges: nat, es: seq<Edge>, more: seq<Edge>)
    ensures PushAll(o, maxEdges, es + more) == PushAll(PushAll(o, maxEdges, es), maxEdges, more)
  {
    if more == [] {
      assert es + more == es;
    } else {
      var n := |more| - 1;
      PushMore(o, maxEdges, es, more[..n]);
      assert (es + more)[..|es + more| - 1] == es + more[..n];
    }
  }
}
