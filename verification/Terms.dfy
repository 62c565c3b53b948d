/**
 Pairs of files that share enough rare terms, ranked.

 A file is its list of terms; a term counts if between two and `maxTermDocs` files have it. Tags
 count two points, words of headings one.
 */
module Terms {
  import opened Common

  datatype Params = Params(maxTermDocs: nat, minSharedScore: nat, maxInferredPerFile: nat, maxEdges: nat)

  datatype Candidate = Candidate(a: nat, b: nat, score: nat, tag: bool)

  predicate IsTag(t: string) {
    t != [] && t[0] == '#'
  }

  function Weight(t: string): nat {
    if IsTag(t) then 2 else 1
  }

  ghost predicate DuplicateFree(terms: seq<seq<string>>) {
    forall i :: 0 <= i < |terms| ==> Distinct(terms[i])
  }

  // ------------------------------------------------ what a candidate is

  /** Number of files with the term. */
  function DocCount(terms: seq<seq<string>>, t: string): nat {
    if terms == [] then 0 else DocCount(terms[..|terms| - 1], t) + if t in terms[|terms| - 1] then 1 else 0
  }

  predicate Rare(terms: seq<seq<string>>, p: Params, t: string) {
    2 <= DocCount(terms, t) <= p.maxTermDocs
  }

  /** Points for the terms of `mine` that `theirs` has too, among those of a set. */
  ghost function Shared(mine: seq<string>, theirs: seq<string>, among: iset<string>): nat {
    if mine == [] then 0
    else
      Shared(mine[..|mine| - 1], theirs, among)
      + if mine[|mine| - 1] in theirs && mine[|mine| - 1] in among then Weight(mine[|mine| - 1]) else 0
  }

  ghost predicate TagShared(mine: seq<string>, theirs: seq<string>, among: iset<string>) {
    exists t :: t in mine && t in theirs && t in among && IsTag(t)
  }

  ghost function RareTerms(terms: seq<seq<string>>, p: Params): iset<string> {
    iset t | Rare(terms, p, t)
  }

  ghost function ScoreOf(terms: seq<seq<string>>, p: Params, a: nat, b: nat): nat
    requires a < |terms| && b < |terms|
  {
    Shared(terms[a], terms[b], RareTerms(terms, p))
  }

  ghost predicate IsCandidate(terms: seq<seq<string>>, p: Params, c: Candidate) {
    && c.a < c.b < |terms|
    && c.score == ScoreOf(terms, p, c.a, c.b)
    && c.score >= Max(p.minSharedScore, 1)
    && c.tag == TagShared(terms[c.a], terms[c.b], RareTerms(terms, p))
  }

  predicate Before(x: Candidate, y: Candidate) {
    x.score > y.score || (x.score == y.score && (x.a < y.a || (x.a == y.a && x.b < y.b)))
  }

  ghost predicate Ranked(cs: seq<Candidate>) {
    forall i, j :: 0 <= i < j < |cs| ==> Before(cs[i], cs[j])
  }

  /** The list holds every candidate pair once, best first. */
  ghost predicate IsRanking(terms: seq<seq<string>>, p: Params, cs: seq<Candidate>) {
    Ranked(cs) && forall c :: c in cs <==> IsCandidate(terms, p, c)
  }

  lemma FirstIsBest(x: seq<Candidate>, c: Candidate)
    requires Ranked(x) && c in x
    ensures x[0] == c || Before(x[0], c)
  {
  }

  lemma HeadsAgree(x: seq<Candidate>, y: seq<Candidate>)
    requires x != [] && Ranked(x) && Ranked(y) && forall c :: c in x <==> c in y
    ensures y != [] && x[0] == y[0]
  {
    assert x[0] in y && y[0] in x;
    FirstIsBest(x, y[0]);
    FirstIsBest(y, x[0]);
  }

  /** A ranking is determined by its members. */
  lemma {:induction false} SameMembersSameRanking(x: seq<Candidate>, y: seq<Candidate>)
    requires Ranked(x) && Ranked(y) && forall c :: c in x <==> c in y
    ensures x == y
  {
    if x != [] {
      HeadsAgree(x, y);
      RestHasRest(x, y);
      SameMembersSameRanking(x[1..], y[1..]);
      assert x == [x[0]] + x[1..] && y == [y[0]] + y[1..];
    } else if y != [] {
      HeadsAgree(y, x);
    }
  }

  lemma RestHasRest(x: seq<Candidate>, y: seq<Candidate>)
    requires x != [] && y != [] && Ranked(x) && Ranked(y) && x[0] == y[0] && forall c :: c in x <==> c in y
    ensures forall c :: c in x[1..] <==> c in y[1..]
  {
    forall c
      ensures c in x[1..] <==> c in x && c != x[0]
      ensures c in y[1..] <==> c in y && c != y[0]
    {
      if c in x[1..] {
        var i :| 1 <= i < |x| && x[i] == c;
        assert Before(x[0], x[i]);
      }
      if c in y[1..] {
        var i :| 1 <= i < |y| && y[i] == c;
        assert Before(y[0], y[i]);
      }
    }
  }

  /** There is only one list the code can compute, in whatever order its hash map is read. */
  lemma RankingIsUnique(terms: seq<seq<string>>, p: Params, x: seq<Candidate>, y: seq<Candidate>)
    requires IsRanking(terms, p, x) && IsRanking(terms, p, y)
    ensures x == y
  {
    SameMembersSameRanking(x, y);
  }

  /** Sharing is mutual: the pair has one score. */
  lemma {:induction false} SharedIsSymmetric(mine: seq<string>, theirs: seq<string>, among: iset<string>)
    requires Distinct(mine) && Distinct(theirs)
    ensures Shared(mine, theirs, among) == Shared(theirs, mine, among)
  {
    if mine == [] {
      NothingShared(theirs, among);
    } else {
      var n := |mine| - 1;
      SharedIsSymmetric(mine[..n], theirs, among);
      SharedWithOneMore(theirs, mine, among);
    }
  }

  lemma {:induction false} NothingShared(mine: seq<string>, among: iset<string>)
    ensures Shared(mine, [], among) == 0
  {
    if mine == [] {
    } else {
      NothingShared(mine[..|mine| - 1], among);
    }
  }

  lemma {:induction false} SharedWithOneMore(mine: seq<string>, theirs: seq<string>, among: iset<string>)
    requires theirs != [] && Distinct(mine) && Distinct(theirs)
    ensures var n := |theirs| - 1;
            Shared(mine, theirs, among)
            == Shared(mine, theirs[..n], among)
               + if theirs[n] in mine && theirs[n] in among then Weight(theirs[n]) else 0
  {
    if mine == [] {
    } else {
      var k, n := |mine| - 1, |theirs| - 1;
      SharedWithOneMore(mine[..k], theirs, among);
      assert theirs == theirs[..n] + [theirs[n]];
      assert mine == mine[..k] + [mine[k]];
    }
  }

  // ------------------------------------------------ files by term

  function Docs(terms: seq<seq<string>>, t: string): seq<nat> {
    if terms == [] then []
    else Docs(terms[..|terms| - 1], t) + if t in terms[|terms| - 1] then [|terms| - 1] else []
  }

  ghost predicate Ascending(ds: seq<nat>) {
    forall i, j :: 0 <= i < j < |ds| ==> ds[i] < ds[j]
  }

  lemma {:induction false} DocsAreTheFiles(terms: seq<seq<string>>, t: string)
    ensures |Docs(terms, t)| == DocCount(terms, t) && Ascending(Docs(terms, t))
    ensures forall d: nat :: d in Docs(terms, t) <==> d < |terms| && t in terms[d]
  {
    if terms == [] {
    } else {
      var n := |terms| - 1;
      DocsAreTheFiles(terms[..n], t);
      var ds := Docs(terms[..n], t);
      forall i | 0 <= i < |ds|
        ensures ds[i] < n
      {
        assert ds[i] in ds;
      }
      forall d: nat
        ensures d in Docs(terms, t) <==> d < |terms| && t in terms[d]
      {
        assert d < n ==> terms[..n][d] == terms[d];
      }
    }
  }

  ghost predicate DocsAre(docs: map<string, seq<nat>>, terms: seq<seq<string>>) {
    forall t :: FilesOf(docs, t) == Docs(terms, t)
  }

  function FilesOf(docs: map<string, seq<nat>>, t: string): seq<nat> {
    if t in docs then docs[t] else []
  }

  method AddFile(docs: map<string, seq<nat>>, i: nat, terms: seq<string>) returns (out: map<string, seq<nat>>)
    requires Distinct(terms)
    ensures forall t :: FilesOf(out, t) == FilesOf(docs, t) + if t in terms then [i] else []
  {
    out := docs;
    for j := 0 to |terms|
      invariant forall t :: FilesOf(out, t) == FilesOf(docs, t) + if t in terms[..j] then [i] else []
    {
      var t := terms[j];
      assert terms[..j + 1] == terms[..j] + [t];
      assert t !in terms[..j];
      out := out[t := FilesOf(out, t) + [i]];
    }
    assert terms[..|terms|] == terms;
  }

  method CollectDocs(terms: seq<seq<string>>) returns (docs: map<string, seq<nat>>)
    requires DuplicateFree(terms)
    ensures DocsAre(docs, terms)
  {
    docs := map[];
    for i := 0 to |terms|
      invariant DocsAre(docs, terms[..i])
    {
      ghost var before := docs;
      docs := AddFile(docs, i, terms[i]);
      forall t
        ensures FilesOf(docs, t) == Docs(terms[..i + 1], t)
      {
        assert terms[..i + 1][..i] == terms[..i];
        assert FilesOf(before, t) == Docs(terms[..i], t);
      }
    }
    assert terms[..|terms|] == terms;
  }

  // ------------------------------------------------ scores by pair

  datatype Points = Points(score: nat, tag: bool)

  function Entry(scores: map<(nat, nat), Points>, a: nat, b: nat): Option<Points> {
    if (a, b) in scores then Some(scores[(a, b)]) else None
  }

  function Bump(entry: Option<Points>, weight: nat, tag: bool): Option<Points> {
    if entry.Some? then Some(Points(entry.value.score + weight, entry.value.tag || tag)) else Some(Points(weight, tag))
  }

  method AddRow(scores: map<(nat, nat), Points>, a: nat, others: seq<nat>, weight: nat, tag: bool)
    returns (out: map<(nat, nat), Points>)
    requires Ascending(others)
    ensures forall x: nat, y: nat :: Entry(out, x, y)
              == if x == a && y in others then Bump(Entry(scores, x, y), weight, tag) else Entry(scores, x, y)
  {
    out := scores;
    for j := 0 to |others|
      invariant forall x: nat, y: nat :: Entry(out, x, y)
                  == if x == a && y in others[..j] then Bump(Entry(scores, x, y), weight, tag) else Entry(scores, x, y)
    {
      assert others[..j + 1] == others[..j] + [others[j]];
      assert others[j] !in others[..j];
      out := out[(a, others[j]) := Bump(Entry(out, a, others[j]), weight, tag).value];
    }
    assert others[..|others|] == others;
  }

  lemma LaterDocs(docs: seq<nat>, k: nat, y: nat)
    requires Ascending(docs) && k < |docs|
    ensures y in docs[k + 1..] <==> y in docs && docs[k] < y
    ensures docs[k] !in docs[..k]
  {
    if y in docs {
      var j :| 0 <= j < |docs| && docs[j] == y;
      if j > k {
        assert docs[k + 1..][j - k - 1] == y;
      }
    }
  }

  method AddPairs(scores: map<(nat, nat), Points>, docs: seq<nat>, weight: nat, tag: bool)
    returns (out: map<(nat, nat), Points>)
    requires Ascending(docs)
    ensures forall x: nat, y: nat :: Entry(out, x, y)
              == if x in docs && y in docs && x < y then Bump(Entry(scores, x, y), weight, tag) else Entry(scores, x, y)
  {
    out := scores;
    for k := 0 to |docs|
      invariant forall x: nat, y: nat :: Entry(out, x, y)
                  == if x in docs[..k] && y in docs && x < y then Bump(Entry(scores, x, y), weight, tag)
                      else Entry(scores, x, y)
    {
      assert docs[..k + 1] == docs[..k] + [docs[k]];
      forall y: nat
        ensures y in docs[k + 1..] <==> y in docs && docs[k] < y
        ensures docs[k] !in docs[..k]
      {
        LaterDocs(docs, k, y);
      }
      out := AddRow(out, docs[k], docs[k + 1..], weight, tag);
    }
    assert docs[..|docs|] == docs;
  }

  /** Points of a pair for the terms of a set; a pair without points has no entry. */
  ghost function Expected(terms: seq<seq<string>>, among: iset<string>, a: nat, b: nat): Option<Points> {
    if a < b < |terms| && Shared(terms[a], terms[b], among) > 0 then
      Some(Points(Shared(terms[a], terms[b], among), TagShared(terms[a], terms[b], among)))
    else None
  }

  lemma {:induction false} SharedGrows(mine: seq<string>, theirs: seq<string>, among: iset<string>, t: string)
    requires Distinct(mine) && t !in among
    ensures Shared(mine, theirs, among + iset{t})
            == Shared(mine, theirs, among) + if t in mine && t in theirs then Weight(t) else 0
  {
    if mine == [] {
    } else {
      var n := |mine| - 1;
      SharedGrows(mine[..n], theirs, among, t);
      assert mine == mine[..n] + [mine[n]];
    }
  }

  lemma {:induction false} TagsScore(mine: seq<string>, theirs: seq<string>, among: iset<string>)
    ensures TagShared(mine, theirs, among) ==> Shared(mine, theirs, among) > 0
  {
    if mine == [] {
    } else {
      var n := |mine| - 1;
      TagsScore(mine[..n], theirs, among);
      assert mine == mine[..n] + [mine[n]];
      if TagShared(mine, theirs, among) && !(mine[n] in theirs && mine[n] in among) {
        var t :| t in mine && t in theirs && t in among && IsTag(t);
        assert t in mine[..n];
      }
    }
  }

  lemma {:induction false} ExpectedGrows(terms: seq<seq<string>>, among: iset<string>, t: string, a: nat, b: nat)
    requires DuplicateFree(terms) && t !in among
    ensures Expected(terms, among + iset{t}, a, b)
            == if a in Docs(terms, t) && b in Docs(terms, t) && a < b
               then Bump(Expected(terms, among, a, b), Weight(t), IsTag(t)) else Expected(terms, among, a, b)
  {
    DocsAreTheFiles(terms, t);
    if a < b < |terms| {
      SharedGrows(terms[a], terms[b], among, t);
      TagsScore(terms[a], terms[b], among);
      assert TagShared(terms[a], terms[b], among + iset{t})
          <==> TagShared(terms[a], terms[b], among) || (t in terms[a] && t in terms[b] && IsTag(t));
    }
  }

  lemma {:induction false} NoneAmongNothing(mine: seq<string>, theirs: seq<string>)
    ensures Shared(mine, theirs, iset{}) == 0
  {
    if mine == [] {
    } else {
      NoneAmongNothing(mine[..|mine| - 1], theirs);
    }
  }

  ghost predicate Scores(scores: map<(nat, nat), Points>, terms: seq<seq<string>>, among: iset<string>) {
    forall a: nat, b: nat :: Entry(scores, a, b) == Expected(terms, among, a, b)
  }

  /** The terms are visited in any order. */
  method ScorePairs(terms: seq<seq<string>>, p: Params, docs: map<string, seq<nat>>)
    returns (scores: map<(nat, nat), Points>)
    requires DuplicateFree(terms) && DocsAre(docs, terms)
    ensures Scores(scores, terms, RareTerms(terms, p))
  {
    scores := map[];
    var todo := docs.Keys;
    ghost var among: iset<string> := iset{};
    forall a: nat, b: nat
      ensures Expected(terms, among, a, b) == None
    {
      if a < b < |terms| {
        NoneAmongNothing(terms[a], terms[b]);
      }
    }
    while todo != {}
      invariant todo <= docs.Keys
      invariant among == iset t | t in docs && t !in todo && Rare(terms, p, t)
      invariant Scores(scores, terms, among)
      decreases todo
    {
      var t :| t in todo;
      todo := todo - {t};
      DocsAreTheFiles(terms, t);
      assert FilesOf(docs, t) == Docs(terms, t);
      if 2 <= |docs[t]| <= p.maxTermDocs {
        forall a: nat, b: nat
          ensures Expected(terms, among + iset{t}, a, b)
                  == if a in docs[t] && b in docs[t] && a < b
                     then Bump(Expected(terms, among, a, b), Weight(t), IsTag(t)) else Expected(terms, among, a, b)
        {
          ExpectedGrows(terms, among, t, a, b);
        }
        scores := AddPairs(scores, docs[t], Weight(t), IsTag(t));
        among := among + iset{t};
      }
    }
    forall t | Rare(terms, p, t)
      ensures t in docs
    {
      DocsAreTheFiles(terms, t);
      assert FilesOf(docs, t) == Docs(terms, t);
    }
    assert among == RareTerms(terms, p);
  }

  // ------------------------------------------------ ranking

  function Insert(cs: seq<Candidate>, c: Candidate): (r: seq<Candidate>)
    ensures forall x :: x in r <==> x in cs || x == c
  {
    if cs == [] || Before(c, cs[0]) then [c] + cs
    else
      assert cs == [cs[0]] + cs[1..];
      [cs[0]] + Insert(cs[1..], c)
  }

  lemma {:induction false} InsertKeepsRanking(cs: seq<Candidate>, c: Candidate)
    requires Ranked(cs) && forall x :: x in cs ==> (x.a, x.b) != (c.a, c.b)
    ensures Ranked(Insert(cs, c))
  {
    if cs == [] {
    } else if Before(c, cs[0]) {
      assert forall i :: 1 <= i < |cs| ==> Before(cs[0], cs[i]);
    } else {
      var rest := Insert(cs[1..], c);
      assert cs[0] in cs;
      InsertKeepsRanking(cs[1..], c);
      forall i | 0 <= i < |rest|
        ensures Before(cs[0], rest[i])
      {
        assert rest[i] in rest;
      }
    }
  }

  /** Filters and sorts the scored pairs, read in any order. */
  method Rank(scores: map<(nat, nat), Points>, minScore: nat) returns (cs: seq<Candidate>)
    ensures Ranked(cs)
    ensures forall c :: c in cs <==> Entry(scores, c.a, c.b) == Some(Points(c.score, c.tag)) && c.score >= minScore
  {
    cs := [];
    var todo := scores.Keys;
    while todo != {}
      invariant todo <= scores.Keys && Ranked(cs)
      invariant forall c :: c in cs <==>
                  Entry(scores, c.a, c.b) == Some(Points(c.score, c.tag)) && c.score >= minScore && (c.a, c.b) !in todo
      decreases todo
    {
      var pair :| pair in todo;
      todo := todo - {pair};
      if scores[pair].score >= minScore {
        var c := Candidate(pair.0, pair.1, scores[pair].score, scores[pair].tag);
        InsertKeepsRanking(cs, c);
        cs := Insert(cs, c);
      }
    }
  }

  method TermCandidates(terms: seq<seq<string>>, p: Params) returns (cs: seq<Candidate>)
    requires DuplicateFree(terms)
    ensures IsRanking(terms, p, cs)
  {
    var docs := CollectDocs(terms);
    var scores := ScorePairs(terms, p, docs);
    cs := Rank(scores, p.minSharedScore);
    forall c
      ensures c in cs <==> IsCandidate(terms, p, c)
    {
      assert Entry(scores, c.a, c.b) == Expected(terms, RareTerms(terms, p), c.a, c.b);
    }
  }
}
