/** What the score of a pair of files counts, and what the ranked list of pairs promises. */
module TermPoints {
  import opened Common
  import opened Terms

  /** The files that have the term. */
  ghost function FilesWith(terms: seq<seq<string>>, t: string): set<nat> {
    set i | 0 <= i < |terms| && t in terms[i]
  }

  /** The terms two files share, if neither too common nor found nowhere else. */
  ghost function SharedRare(terms: seq<seq<string>>, p: Params, a: nat, b: nat): set<string>
    requires a < |terms| && b < |terms|
  {
    set t | t in terms[a] && t in terms[b] && 2 <= |FilesWith(terms, t)| <= p.maxTermDocs
  }

  ghost function TagsOf(ts: set<string>): set<string> {
    set t | t in ts && "#" <= t
  }

  /** Two points for every shared rare tag, one for every other shared rare term. */
  ghost function PointsOf(ts: set<string>): nat {
    2 * |TagsOf(ts)| + |ts - TagsOf(ts)|
  }

  lemma {:induction false} DocCountCounts(terms: seq<seq<string>>, t: string)
    ensures DocCount(terms, t) == |FilesWith(terms, t)|
  {
    if terms == [] {
    } else {
      var n := |terms| - 1;
      DocCountCounts(terms[..n], t);
      assert FilesWith(terms, t) == FilesWith(terms[..n], t) + if t in terms[n] then {n} else {};
    }
  }

  ghost function SharedAmong(mine: seq<string>, theirs: seq<string>, among: iset<string>): set<string> {
    set t | t in mine && t in theirs && t in among
  }

  lemma TagByPrefix(t: string)
    ensures IsTag(t) <==> "#" <= t
  {
  }

  lemma OnePoint(ts: set<string>, t: string)
    requires t !in ts
    ensures PointsOf(ts + {t}) == PointsOf(ts) + Weight(t)
  {
    hide IsTag;
    var more := ts + {t};
    TagByPrefix(t);
    if "#" <= t {
      assert TagsOf(more) == TagsOf(ts) + {t};
      assert more - TagsOf(more) == ts - TagsOf(ts);
    } else {
      assert TagsOf(more) == TagsOf(ts);
      assert more - TagsOf(more) == (ts - TagsOf(ts)) + {t};
    }
  }

  lemma SharedAmongNext(mine: seq<string>, theirs: seq<string>, among: iset<string>)
    requires mine != [] && Distinct(mine)
    ensures
      var n := |mine| - 1;
      var before := SharedAmong(mine[..n], theirs, among);
      && mine[n] !in before
      && SharedAmong(mine, theirs, among)
         == if mine[n] in theirs && mine[n] in among then before + {mine[n]} else before
  {
    assert mine == mine[..|mine| - 1] + [mine[|mine| - 1]];
  }

  lemma {:induction false} SharedIsPoints(mine: seq<string>, theirs: seq<string>, among: iset<string>)
    requires Distinct(mine)
    ensures Shared(mine, theirs, among) == PointsOf(SharedAmong(mine, theirs, among))
  {
    if mine == [] {
      assert SharedAmong(mine, theirs, among) == {};
    } else {
      hide PointsOf, SharedAmong, Weight;
      var n := |mine| - 1;
      SharedIsPoints(mine[..n], theirs, among);
      SharedAmongNext(mine, theirs, among);
      OnePoint(SharedAmong(mine[..n], theirs, among), mine[n]);
    }
  }

  lemma {:induction false} SharedRareAmong(terms: seq<seq<string>>, p: Params, a: nat, b: nat)
    requires a < |terms| && b < |terms|
    ensures SharedAmong(terms[a], terms[b], RareTerms(terms, p)) == SharedRare(terms, p, a, b)
  {
    hide DocCount, FilesWith;
    forall t
      ensures t in RareTerms(terms, p) <==> 2 <= |FilesWith(terms, t)| <= p.maxTermDocs
    {
      DocCountCounts(terms, t);
    }
  }

  lemma SomeTagShared(mine: seq<string>, theirs: seq<string>, among: iset<string>)
    ensures TagShared(mine, theirs, among) <==> TagsOf(SharedAmong(mine, theirs, among)) != {}
  {
    hide IsTag;
    forall t
      ensures IsTag(t) <==> "#" <= t
    {
      TagByPrefix(t);
    }
    if TagShared(mine, theirs, among) {
      var t :| t in mine && t in theirs && t in among && IsTag(t);
      assert t in TagsOf(SharedAmong(mine, theirs, among));
    }
  }

  lemma {:induction false} ScoreIsPoints(terms: seq<seq<string>>, p: Params, a: nat, b: nat)
    requires DuplicateFree(terms) && a < |terms| && b < |terms|
    ensures ScoreOf(terms, p, a, b) == PointsOf(SharedRare(terms, p, a, b))
    ensures TagShared(terms[a], terms[b], RareTerms(terms, p)) <==> TagsOf(SharedRare(terms, p, a, b)) != {}
  {
    hide Shared, SharedAmong, SharedRare, PointsOf, TagsOf, TagShared, RareTerms, Distinct;
    SharedIsPoints(terms[a], terms[b], RareTerms(terms, p));
    SharedRareAmong(terms, p, a, b);
    SomeTagShared(terms[a], terms[b], RareTerms(terms, p));
  }

  /** `c` is listed for its pair with the points the pair has. */
  ghost predicate Lists(terms: seq<seq<string>>, p: Params, c: Candidate, a: nat, b: nat)
    requires a < |terms| && b < |terms|
  {
    && c.a == a && c.b == b && c.score == PointsOf(SharedRare(terms, p, a, b))
    && (c.tag <==> TagsOf(SharedRare(terms, p, a, b)) != {})
  }

  /**
   A pair of files is listed exactly if its points, two for a shared rare tag and one for any other
   shared rare term, are some and at least as many as required; more points come first, then smaller
   file numbers.
   */
  lemma {:induction false} CandidatesByPoints(terms: seq<seq<string>>, p: Params, cs: seq<Candidate>, a: nat, b: nat)
    requires DuplicateFree(terms) && IsRanking(terms, p, cs) && a < b < |terms|
    ensures (exists c :: c in cs && Lists(terms, p, c, a, b))
            <==> PointsOf(SharedRare(terms, p, a, b)) >= 1
                 && PointsOf(SharedRare(terms, p, a, b)) >= p.minSharedScore
    ensures forall c :: c in cs && c.a == a && c.b == b ==> Lists(terms, p, c, a, b)
    ensures forall i, j :: 0 <= i < j < |cs| ==>
              || cs[i].score > cs[j].score
              || (cs[i].score == cs[j].score && cs[i].a < cs[j].a)
              || (cs[i].score == cs[j].score && cs[i].a == cs[j].a && cs[i].b < cs[j].b)
  {
    ScoreIsPoints(terms, p, a, b);
    hide PointsOf, SharedRare, TagsOf, TagShared, ScoreOf;
    var points := PointsOf(SharedRare(terms, p, a, b));
    var c := Candidate(a, b, points, TagsOf(SharedRare(terms, p, a, b)) != {});
    assert Lists(terms, p, c, a, b);
    assert IsCandidate(terms, p, c) <==> points >= Max(p.minSharedScore, 1);
    assert forall i, j :: 0 <= i < j < |cs| ==> Before(cs[i], cs[j]);
  }
}
