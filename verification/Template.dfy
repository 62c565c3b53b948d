/**
 The template registry: online clustering of masked log lines.

 A line is a list of tokens. It joins the most similar cluster of the same length, which is
 generalised to `<*>` where the two differ, or founds a new cluster; a full registry first
 gives up the cluster that was seen least recently.
 */
module Template {
  import opened Common

  type Token = string
  type Line = seq<Token>

  /** Stands for FNV-1a over the bytes of the joined line. */
  type HashFn = string -> nat

  const WILDCARD: Token := "<*>"

  /** Id reported for a line without tokens. */
  const EMPTY_ID: nat := 0

  datatype Cluster = Cluster(id: nat, tokens: Line, firstSeen: nat, lastSeen: nat, count: nat)

  datatype Match = Match(id: nat, template: string, firstSeen: nat, count: nat, isNew: bool)

  datatype Settings = Settings(threshold: real, maxTemplates: nat)

  function Join(line: Line): string {
    if |line| == 0 then ""
    else if |line| == 1 then line[0]
    else line[0] + " " + Join(line[1..])
  }

  // ---------------------------------------------------------------- similarity

  /** Number of positions of `t` that are not generalised. */
  function Concrete(t: Line): nat {
    if t == [] then 0
    else Concrete(t[..|t| - 1]) + if t[|t| - 1] != WILDCARD then 1 else 0
  }

  /** Number of positions of `t` that are not generalised and agree with `l`. */
  function Hits(t: Line, l: Line): (n: nat)
    requires |t| == |l|
  {
    if t == [] then 0
    else Hits(t[..|t| - 1], l[..|l| - 1]) +
         if t[|t| - 1] != WILDCARD && t[|t| - 1] == l[|l| - 1] then 1 else 0
  }

  function Similarity(t: Line, l: Line): real
    requires |t| == |l|
  {
    if t == [] then 1.0
    else if Concrete(t) == 0 then 0.0
    else Hits(t, l) as real / Concrete(t) as real
  }

  /** Walks the two lines once, counting concrete positions and agreements. */
  method TokenSimilarity(t: Line, l: Line) returns (s: real)
    requires |t| == |l|
    ensures s == Similarity(t, l)
  {
    if t == [] {
      return 1.0;
    }
    var concrete, matches := 0, 0;
    for i := 0 to |t|
      invariant concrete == Concrete(t[..i]) && matches == Hits(t[..i], l[..i])
    {
      assert t[..i + 1][..i] == t[..i] && l[..i + 1][..i] == l[..i];
      if t[i] != WILDCARD {
        concrete := concrete + 1;
        if t[i] == l[i] {
          matches := matches + 1;
        }
      }
    }
    assert t[..|t|] == t && l[..|l|] == l;
    if concrete == 0 {
      return 0.0;
    }
    return matches as real / concrete as real;
  }

  /** The template generalised to `<*>` wherever it disagrees with the line. */
  function Merge(t: Line, l: Line): (m: Line)
    requires |t| == |l|
    ensures |m| == |t|
    ensures forall i :: 0 <= i < |t| ==> m[i] == if t[i] == l[i] then t[i] else WILDCARD
  {
    seq(|t|, i requires 0 <= i < |t| => if t[i] == l[i] then t[i] else WILDCARD)
  }

  method MergeIntoTemplate(t: Line, l: Line) returns (m: Line)
    requires |t| == |l|
    ensures m == Merge(t, l)
  {
    m := t;
    for i := 0 to |t|
      invariant |m| == |t|
      invariant forall k :: 0 <= k < i ==> m[k] == Merge(t, l)[k]
      invariant forall k :: i <= k < |t| ==> m[k] == t[k]
    {
      if m[i] != WILDCARD && m[i] != l[i] {
        m := m[i := WILDCARD];
      }
    }
  }

  // ---------------------------------------------------------------- best match

  /** Cluster `i` has the length of the line and is similar enough to it. */
  predicate Candidate(cs: seq<Cluster>, l: Line, threshold: real, i: nat) {
    i < |cs| && |cs[i].tokens| == |l| && Similarity(cs[i].tokens, l) >= threshold
  }

  /** `r` is the most similar candidate, the earliest one if several are equally similar. */
  ghost predicate IsBest(cs: seq<Cluster>, l: Line, threshold: real, r: Option<nat>) {
    match r
    case None => forall i :: 0 <= i < |cs| ==> !Candidate(cs, l, threshold, i)
    case Some(b) =>
      && Candidate(cs, l, threshold, b)
      && (forall i :: 0 <= i < |cs| && Candidate(cs, l, threshold, i) ==>
            Similarity(cs[i].tokens, l) <= Similarity(cs[b].tokens, l))
      && (forall i :: 0 <= i < b && Candidate(cs, l, threshold, i) ==>
            Similarity(cs[i].tokens, l) < Similarity(cs[b].tokens, l))
  }

  /** The best match by a plain scan over all clusters, without the length index. */
  function Best(cs: seq<Cluster>, l: Line, threshold: real): (r: Option<nat>)
    ensures IsBest(cs, l, threshold, r)
  {
    if cs == [] then None
    else
      var n := |cs| - 1;
      var front := cs[..n];
      var r := Best(front, l, threshold);
      assert forall i :: 0 <= i < n ==> Candidate(cs, l, threshold, i) == Candidate(front, l, threshold, i);
      if !Candidate(cs, l, threshold, n) then r
      else if r.None? || Similarity(cs[n].tokens, l) > Similarity(cs[r.value].tokens, l) then Some(n)
      else r
  }

  lemma {:induction false} BestIsUnique(cs: seq<Cluster>, l: Line, threshold: real, r: Option<nat>)
    requires IsBest(cs, l, threshold, r)
    ensures r == Best(cs, l, threshold)
  {
    var b := Best(cs, l, threshold);
    if r.Some? && b.Some? {
      assert Candidate(cs, l, threshold, r.value) && Candidate(cs, l, threshold, b.value);
    }
  }

  // ---------------------------------------------------------------- length index

  function AddToIndex(index: map<nat, seq<nat>>, len: nat, i: nat): map<nat, seq<nat>> {
    index[len := (if len in index then index[len] else []) + [i]]
  }

  /** The index a rebuild from scratch produces. */
  function IndexOf(cs: seq<Cluster>): map<nat, seq<nat>> {
    if cs == [] then map[]
    else AddToIndex(IndexOf(cs[..|cs| - 1]), |cs[|cs| - 1].tokens|, |cs| - 1)
  }

  /** Every cluster is listed exactly once, in increasing order, under the length of its template. */
  ghost predicate IndexExact(index: map<nat, seq<nat>>, cs: seq<Cluster>) {
    && (forall len, k :: len in index && 0 <= k < |index[len]| ==>
          index[len][k] < |cs| && |cs[index[len][k]].tokens| == len)
    && (forall len, j, k :: len in index && 0 <= j < k < |index[len]| ==> index[len][j] < index[len][k])
    && (forall i :: 0 <= i < |cs| ==> |cs[i].tokens| in index && i in index[|cs[i].tokens|])
  }

  lemma {:induction false} IndexOfIsExact(cs: seq<Cluster>)
    ensures IndexExact(IndexOf(cs), cs)
  {
    if cs == [] {
    } else {
      var n := |cs| - 1;
      IndexOfIsExact(cs[..n]);
      AddKeepsIndexExact(IndexOf(cs[..n]), cs[..n], cs[n]);
      assert cs == cs[..n] + [cs[n]];
    }
  }

  lemma AddKeepsIndexExact(before: map<nat, seq<nat>>, cs: seq<Cluster>, c: Cluster)
    requires IndexExact(before, cs)
    ensures IndexExact(AddToIndex(before, |c.tokens|, |cs|), cs + [c])
  {
    var after, all := AddToIndex(before, |c.tokens|, |cs|), cs + [c];
    forall len, k | len in after && 0 <= k < |after[len]|
      ensures after[len][k] < |all| && |all[after[len][k]].tokens| == len
    {
      ListedAfterAdd(before, cs, c, len, k);
    }
    forall len, j, k | len in after && 0 <= j < k < |after[len]|
      ensures after[len][j] < after[len][k]
    {
      ListedAfterAdd(before, cs, c, len, j);
      ListedAfterAdd(before, cs, c, len, k);
    }
    forall i | 0 <= i < |all|
      ensures |all[i].tokens| in after && i in after[|all[i].tokens|]
    {
      FoundAfterAdd(before, cs, c, i);
    }
  }

  lemma ListedAfterAdd(before: map<nat, seq<nat>>, cs: seq<Cluster>, c: Cluster, len: nat, k: nat)
    requires IndexExact(before, cs)
    requires var after := AddToIndex(before, |c.tokens|, |cs|); len in after && k < |after[len]|
    ensures var after := AddToIndex(before, |c.tokens|, |cs|);
            if len == |c.tokens| && k == |after[len]| - 1 then after[len][k] == |cs|
            else len in before && k < |before[len]| && after[len][k] == before[len][k]
  {
  }

  lemma FoundAfterAdd(before: map<nat, seq<nat>>, cs: seq<Cluster>, c: Cluster, i: nat)
    requires IndexExact(before, cs) && i <= |cs|
    ensures var after, len := AddToIndex(before, |c.tokens|, |cs|), |(cs + [c])[i].tokens|;
            len in after && i in after[len]
  {
    var after := AddToIndex(before, |c.tokens|, |cs|);
    if i < |cs| {
      assert i in before[|cs[i].tokens|];
    } else {
      assert after[|c.tokens|][|after[|c.tokens|]| - 1] == |cs|;
    }
  }

  /** The index depends on the template lengths alone. */
  lemma {:induction false} IndexOfLengths(cs: seq<Cluster>, ds: seq<Cluster>)
    requires |cs| == |ds|
    requires forall i :: 0 <= i < |cs| ==> |cs[i].tokens| == |ds[i].tokens|
    ensures IndexOf(cs) == IndexOf(ds)
  {
    if cs == [] {
    } else {
      IndexOfLengths(cs[..|cs| - 1], ds[..|ds| - 1]);
    }
  }

  /** `positions` is a strictly increasing list of clusters of one length. */
  ghost predicate OfLength(cs: seq<Cluster>, positions: seq<nat>, len: nat) {
    && (forall k :: 0 <= k < |positions| ==> positions[k] < |cs| && |cs[positions[k]].tokens| == len)
    && (forall j, k :: 0 <= j < k < |positions| ==> positions[j] < positions[k])
  }

  /** `r` is the first best match among the listed positions. */
  ghost predicate BestAmong(cs: seq<Cluster>, l: Line, threshold: real, positions: seq<nat>, r: Option<nat>) {
    && (r.Some? ==> r.value in positions && Candidate(cs, l, threshold, r.value))
    && (forall i :: i in positions && Candidate(cs, l, threshold, i) ==>
          && r.Some?
          && Similarity(cs[i].tokens, l) <= Similarity(cs[r.value].tokens, l)
          && (i < r.value ==> Similarity(cs[i].tokens, l) < Similarity(cs[r.value].tokens, l)))
  }

  lemma BestAmongNext(cs: seq<Cluster>, l: Line, threshold: real, positions: seq<nat>, k: nat, r: Option<nat>)
    requires k < |positions| && OfLength(cs, positions, |l|)
    requires BestAmong(cs, l, threshold, positions[..k], r)
    ensures
      var i := positions[k];
      var sim := Similarity(cs[i].tokens, l);
      var better := sim >= threshold && (r.None? || sim > Similarity(cs[r.value].tokens, l));
      BestAmong(cs, l, threshold, positions[..k + 1], if better then Some(i) else r)
  {
    assert positions[..k + 1] == positions[..k] + [positions[k]];
  }

  lemma {:induction false} BestAmongAll(cs: seq<Cluster>, l: Line, threshold: real, positions: seq<nat>, r: Option<nat>)
    requires BestAmong(cs, l, threshold, positions, r)
    requires forall i :: 0 <= i < |cs| && |cs[i].tokens| == |l| ==> i in positions
    ensures r == Best(cs, l, threshold)
  {
    assert IsBest(cs, l, threshold, r);
    BestIsUnique(cs, l, threshold, r);
  }

  // ---------------------------------------------------------------- one line

  /** The earliest cluster among those with the smallest `lastSeen`. */
  function Oldest(cs: seq<Cluster>): (o: nat)
    requires cs != []
    ensures o < |cs|
    ensures forall i :: 0 <= i < |cs| ==> cs[o].lastSeen <= cs[i].lastSeen
    ensures forall i :: 0 <= i < o ==> cs[o].lastSeen < cs[i].lastSeen
  {
    if |cs| == 1 then 0
    else
      var n := |cs| - 1;
      var o := Oldest(cs[..n]);
      if cs[n].lastSeen < cs[o].lastSeen then n else o
  }

  function WithoutOldest(cs: seq<Cluster>): seq<Cluster> {
    if cs == [] then cs else RemoveAt(cs, Oldest(cs))
  }

  /** The clusters that stay when a new one is about to be added. */
  function MakeRoom(cs: seq<Cluster>, maxTemplates: nat): seq<Cluster> {
    if |cs| >= maxTemplates then WithoutOldest(cs) else cs
  }

  function Founded(hash: HashFn, l: Line, now: nat): Cluster {
    Cluster(hash(Join(l)), l, now, now, 1)
  }

  function Joined(c: Cluster, l: Line, now: nat): Cluster
    requires |c.tokens| == |l|
  {
    c.(tokens := Merge(c.tokens, l), lastSeen := now, count := c.count + 1)
  }

  /** The registry after one line. */
  function Step(cs: seq<Cluster>, cfg: Settings, hash: HashFn, l: Line, now: nat): seq<Cluster> {
    if l == [] then cs
    else match Best(cs, l, cfg.threshold)
      case Some(b) => cs[b := Joined(cs[b], l, now)]
      case None => MakeRoom(cs, cfg.maxTemplates) + [Founded(hash, l, now)]
  }

  /** What the caller is told about one line. */
  function Report(cs: seq<Cluster>, cfg: Settings, hash: HashFn, l: Line, now: nat): Match {
    if l == [] then Match(EMPTY_ID, "", now, 0, false)
    else match Best(cs, l, cfg.threshold)
      case Some(b) =>
        var c := Joined(cs[b], l, now);
        Match(c.id, Join(c.tokens), c.firstSeen, c.count, false)
      case None => Match(hash(Join(l)), Join(l), now, 1, true)
  }

  // ---------------------------------------------------------------- snapshots

  /** A cluster as it is stored; `order` is its position in the registry. */
  datatype Record = Record(id: nat, order: nat, tokens: Line, firstSeen: nat, lastSeen: nat, count: nat)

  function ToRecord(c: Cluster, order: nat): Record {
    Record(c.id, order, c.tokens, c.firstSeen, c.lastSeen, c.count)
  }

  function FromRecord(r: Record): Cluster {
    Cluster(r.id, r.tokens, r.firstSeen, r.lastSeen, r.count)
  }

  function Snapshot(cs: seq<Cluster>): seq<Record> {
    seq(|cs|, i requires 0 <= i < |cs| => ToRecord(cs[i], i))
  }

  /** Inserts behind all records of the same or a smaller order. */
  function InsertByOrder(sorted: seq<Record>, r: Record): (s: seq<Record>)
    ensures multiset(s) == multiset(sorted) + multiset{r}
    ensures |s| == |sorted| + 1
  {
    if sorted == [] || sorted[|sorted| - 1].order <= r.order then sorted + [r]
    else
      var n := |sorted| - 1;
      assert sorted == sorted[..n] + [sorted[n]];
      InsertByOrder(sorted[..n], r) + [sorted[n]]
  }

  /** The stable sort by `order`. */
  function SortByOrder(rs: seq<Record>): (s: seq<Record>)
    ensures multiset(s) == multiset(rs)
    ensures |s| == |rs|
  {
    if rs == [] then []
    else
      assert rs == rs[..|rs| - 1] + [rs[|rs| - 1]];
      InsertByOrder(SortByOrder(rs[..|rs| - 1]), rs[|rs| - 1])
  }

  /** The clusters of the records that have tokens, in the given order. */
  function Rebuild(rs: seq<Record>): seq<Cluster> {
    if rs == [] then []
    else
      var r := rs[|rs| - 1];
      Rebuild(rs[..|rs| - 1]) + if r.tokens == [] then [] else [FromRecord(r)]
  }

  /** The clusters an engine starts with when it is rebuilt from stored records. */
  function Restored(rs: seq<Record>, maxTemplates: nat): seq<Cluster> {
    Rebuild(SortByOrder(rs)[..Min(maxTemplates, |rs|)])
  }

  /** The engine as the daemon keeps it: clusters, and an index from length to positions. */
  class TemplateEngine {
    var clusters: seq<Cluster>
    var byLen: map<nat, seq<nat>>
    const threshold: real
    const maxTemplates: nat
    const hash: HashFn
    var evicted: nat

    ghost predicate Valid()
      reads this
    {
      byLen == IndexOf(clusters) && 0.0 <= threshold <= 1.0
    }

    function Cfg(): Settings {
      Settings(threshold, maxTemplates)
    }

    constructor (threshold: real, maxTemplates: nat, hash: HashFn)
      ensures Valid() && clusters == [] && evicted == 0
      ensures this.maxTemplates == maxTemplates && this.hash == hash
      ensures this.threshold == if threshold < 0.0 then 0.0 else if threshold > 1.0 then 1.0 else threshold
    {
      clusters, byLen, evicted := [], map[], 0;
      this.threshold := if threshold < 0.0 then 0.0 else if threshold > 1.0 then 1.0 else threshold;
      this.maxTemplates := maxTemplates;
      this.hash := hash;
    }

    /** Rebuilds an engine from stored records, whatever order they arrive in. */
    constructor Restore(records: seq<Record>, threshold: real, maxTemplates: nat, hash: HashFn)
      ensures Valid() && clusters == Restored(records, maxTemplates) && evicted == 0
      ensures this.maxTemplates == maxTemplates && this.hash == hash
      ensures this.threshold == if threshold < 0.0 then 0.0 else if threshold > 1.0 then 1.0 else threshold
    {
      clusters, byLen, evicted := [], map[], 0;
      this.threshold := if threshold < 0.0 then 0.0 else if threshold > 1.0 then 1.0 else threshold;
      this.maxTemplates := maxTemplates;
      this.hash := hash;
      new;
      hide SortByOrder;
      AppendRecords(SortByOrder(records)[..Min(maxTemplates, |records|)]);
    }

    /** Adds a cluster for every record that has tokens. */
    method AppendRecords(kept: seq<Record>)
      requires Valid()
      modifies `clusters, `byLen
      ensures Valid() && clusters == old(clusters) + Rebuild(kept)
    {
      ghost var before := clusters;
      for i := 0 to |kept|
        invariant Valid() && clusters == before + Rebuild(kept[..i])
      {
        assert kept[..i + 1][..i] == kept[..i];
        if kept[i].tokens != [] {
          Append(FromRecord(kept[i]));
        }
      }
      assert kept[..|kept|] == kept;
    }

    /** Adds a cluster and lists it under its length. */
    method Append(c: Cluster)
      requires Valid()
      modifies `clusters, `byLen
      ensures Valid() && clusters == old(clusters) + [c]
    {
      var index := |clusters|;
      ghost var before := clusters;
      clusters := clusters + [c];
      assert clusters[..index] == before;
      byLen := AddToIndex(byLen, |c.tokens|, index);
    }

    /** Looks at the clusters of the right length only, yet finds what the full scan finds. */
    method FindBestCluster(l: Line) returns (r: Option<nat>)
      requires Valid()
      ensures r == Best(clusters, l, threshold)
    {
      IndexOfIsExact(clusters);
      if |l| !in byLen {
        BestIsUnique(clusters, l, threshold, None);
        return None;
      }
      var candidates := byLen[|l|];
      assert OfLength(clusters, candidates, |l|);
      r := None;
      var bestSim := 0.0;
      for k := 0 to |candidates|
        invariant BestAmong(clusters, l, threshold, candidates[..k], r)
        invariant r.Some? ==> r.value < |clusters| && |clusters[r.value].tokens| == |l|
                              && bestSim == Similarity(clusters[r.value].tokens, l)
      {
        var i := candidates[k];
        var similarity := TokenSimilarity(clusters[i].tokens, l);
        BestAmongNext(clusters, l, threshold, candidates, k, r);
        if similarity >= threshold && (r.None? || similarity > bestSim) {
          r, bestSim := Some(i), similarity;
        }
      }
      assert candidates[..|candidates|] == candidates;
      BestAmongAll(clusters, l, threshold, candidates, r);
    }

    /** Drops the least recently seen cluster and rebuilds the index. */
    method EvictLeastRecentlySeen()
      requires Valid()
      modifies `clusters, `byLen
      ensures Valid() && clusters == WithoutOldest(old(clusters))
    {
      if clusters == [] {
        return;
      }
      var idx := 0;
      for i := 1 to |clusters|
        invariant idx == Oldest(clusters[..i])
      {
        assert clusters[..i + 1][..i] == clusters[..i];
        if clusters[i].lastSeen < clusters[idx].lastSeen {
          idx := i;
        }
      }
      assert clusters[..|clusters|] == clusters;
      clusters := RemoveAt(clusters, idx);
      RebuildIndex();
    }

    method RebuildIndex()
      modifies `byLen
      ensures byLen == IndexOf(clusters)
    {
      byLen := map[];
      for i := 0 to |clusters|
        invariant byLen == IndexOf(clusters[..i])
      {
        assert clusters[..i + 1][..i] == clusters[..i];
        byLen := AddToIndex(byLen, |clusters[i].tokens|, i);
      }
      assert clusters[..|clusters|] == clusters;
    }

    /** A known pattern: the cluster is generalised and counts the line. */
    method JoinCluster(b: nat, l: Line, now: nat) returns (m: Match)
      requires Valid() && b < |clusters| && |clusters[b].tokens| == |l|
      modifies `clusters
      ensures Valid() && clusters == old(clusters)[b := Joined(old(clusters)[b], l, now)]
      ensures m == Match(clusters[b].id, Join(clusters[b].tokens), clusters[b].firstSeen, clusters[b].count, false)
    {
      var c := clusters[b];
      var tokens := MergeIntoTemplate(c.tokens, l);
      c := c.(tokens := tokens, count := c.count + 1, lastSeen := now);
      clusters := clusters[b := c];
      IndexOfLengths(old(clusters), clusters);
      return Match(c.id, Join(c.tokens), c.firstSeen, c.count, false);
    }

    /** An unknown pattern: it gets a cluster of its own. */
    method FoundCluster(l: Line, now: nat) returns (m: Match)
      requires Valid()
      modifies `clusters, `byLen, `evicted
      ensures Valid()
      ensures clusters == MakeRoom(old(clusters), maxTemplates) + [Founded(hash, l, now)]
      ensures m == Match(hash(Join(l)), Join(l), now, 1, true)
      ensures evicted == old(evicted) + if |old(clusters)| >= maxTemplates then 1 else 0
    {
      hide WithoutOldest, Join;
      if |clusters| >= maxTemplates {
        EvictLeastRecentlySeen();
        evicted := evicted + 1;
      }
      var id := hash(Join(l));
      Append(Cluster(id, l, now, now, 1));
      return Match(id, Join(l), now, 1, true);
    }

    /** Assigns one masked line to a cluster. */
    method Process(l: Line, now: nat) returns (m: Match)
      requires Valid()
      modifies `clusters, `byLen, `evicted
      ensures Valid()
      ensures clusters == Step(old(clusters), Cfg(), hash, l, now)
      ensures m == Report(old(clusters), Cfg(), hash, l, now)
      ensures evicted == old(evicted) + if m.isNew && |old(clusters)| >= maxTemplates then 1 else 0
    {
      if l == [] {
        return Match(EMPTY_ID, "", now, 0, false);
      }
      var best := FindBestCluster(l);
      if best.Some? {
        m := JoinCluster(best.value, l, now);
      } else {
        m := FoundCluster(l, now);
      }
    }
  }
}
