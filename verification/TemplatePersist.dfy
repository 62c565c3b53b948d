/**
 The registry across a restart: clusters are stored in a table keyed by template id, come back
 in key order, and are sorted into registry order again.
 */
module TemplatePersist {
  import opened Common
  import opened Template
  import opened TemplateRuns

  // ------------------------------------------------ the table

  /** A later record replaces an earlier one with the same id. */
  function Saved(rs: seq<Record>): map<nat, Record> {
    if rs == [] then map[]
    else Saved(rs[..|rs| - 1])[rs[|rs| - 1].id := rs[|rs| - 1]]
  }

  lemma {:induction false} SmallestExists(keys: set<nat>, k: nat)
    requires k in keys
    ensures exists m :: m in keys && forall j :: j in keys ==> m <= j
    decreases k
  {
    if j :| j in keys && j < k {
      SmallestExists(keys, j);
    } else {
      assert forall j :: j in keys ==> k <= j;
    }
  }

  function Smallest(keys: set<nat>): (m: nat)
    requires keys != {}
    ensures m in keys && forall j :: j in keys ==> m <= j
  {
    assert exists m :: m in keys && forall j :: j in keys ==> m <= j by {
      var k :| k in keys;
      SmallestExists(keys, k);
    }
    var m :| m in keys && forall j :: j in keys ==> m <= j;
    m
  }

  /** The keys of a table in ascending order, as its iterator yields them. */
  function KeysInOrder(keys: set<nat>): (s: seq<nat>)
    ensures |s| == |keys|
    ensures forall k :: k in keys <==> k in s
    ensures forall i, j :: 0 <= i < j < |s| ==> s[i] < s[j]
    decreases |keys|
  {
    if keys == {} then []
    else
      var k := Smallest(keys);
      var rest := KeysInOrder(keys - {k});
      SmallestFirst(keys, k, rest);
      [k] + rest
  }

  lemma SmallestFirst(keys: set<nat>, k: nat, rest: seq<nat>)
    requires k in keys && (forall j :: j in keys ==> k <= j) && |rest| == |keys - {k}|
    requires forall j :: j in keys - {k} <==> j in rest
    requires forall i, j :: 0 <= i < j < |rest| ==> rest[i] < rest[j]
    ensures var s := [k] + rest;
            && |s| == |keys| && (forall j :: j in keys <==> j in s)
            && forall i, j :: 0 <= i < j < |s| ==> s[i] < s[j]
  {
    assert keys == {k} + (keys - {k});
    assert forall i :: 0 <= i < |rest| ==> rest[i] in keys - {k};
  }

  function Loaded(table: map<nat, Record>): (rs: seq<Record>) {
    var keys := KeysInOrder(table.Keys);
    seq(|keys|, i requires 0 <= i < |keys| => table[keys[i]])
  }

  // ------------------------------------------------ keys of the baseline table

  /** Unit, template and time slot of one stored histogram. */
  datatype BaselineKey = BaselineKey(unit: nat, template: nat, slot: nat)

  ghost predicate FitsKey(k: BaselineKey) {
    k.unit <= U64_MAX && k.template <= U64_MAX && k.slot < 256
  }

  function Pow256(n: nat): (p: nat)
    ensures p > 0
  {
    if n == 0 then 1 else 256 * Pow256(n - 1)
  }

  /** The `n` lowest bytes of `v`, most significant first. */
  function BigEndian(v: nat, n: nat): (b: seq<nat>)
    ensures |b| == n && forall i :: 0 <= i < n ==> b[i] < 256
  {
    if n == 0 then [] else BigEndian(v / 256, n - 1) + [v % 256]
  }

  function FromBigEndian(b: seq<nat>): nat {
    if b == [] then 0 else FromBigEndian(b[..|b| - 1]) * 256 + b[|b| - 1]
  }

  lemma {:induction false} BigEndianRoundTrip(v: nat, n: nat)
    requires v < Pow256(n)
    ensures FromBigEndian(BigEndian(v, n)) == v
  {
    if n > 0 {
      BigEndianRoundTrip(v / 256, n - 1);
      assert BigEndian(v, n)[..n - 1] == BigEndian(v / 256, n - 1);
    }
  }

  lemma {:induction false} FromBigEndianRoundTrip(b: seq<nat>)
    requires forall i :: 0 <= i < |b| ==> b[i] < 256
    ensures BigEndian(FromBigEndian(b), |b|) == b
    ensures FromBigEndian(b) < Pow256(|b|)
  {
    if b == [] {
    } else {
      FromBigEndianRoundTrip(b[..|b| - 1]);
      assert b == b[..|b| - 1] + [b[|b| - 1]];
    }
  }

  function PackKey(k: BaselineKey): (raw: seq<nat>)
    ensures |raw| == 17
  {
    BigEndian(k.unit, 8) + BigEndian(k.template, 8) + [k.slot]
  }

  function UnpackKey(raw: seq<nat>): BaselineKey
    requires |raw| == 17
  {
    BaselineKey(FromBigEndian(raw[..8]), FromBigEndian(raw[8..16]), raw[16])
  }

  lemma Eight()
    ensures Pow256(8) == U64_MAX + 1
  {
    assert Pow256(4) == 0x1_0000_0000;
    assert Pow256(8) == 256 * (256 * (256 * (256 * Pow256(4))));
  }

  /** Packing is a bijection between the keys and the byte strings of length 17: no two histograms share an entry. */
  lemma PackedKeysAreExact(k: BaselineKey, raw: seq<nat>)
    requires FitsKey(k) && |raw| == 17 && forall i :: 0 <= i < 17 ==> raw[i] < 256
    ensures UnpackKey(PackKey(k)) == k
    ensures PackKey(UnpackKey(raw)) == raw && FitsKey(UnpackKey(raw))
  {
    PackThenUnpack(k);
    UnpackThenPack(raw);
  }

  lemma PackThenUnpack(k: BaselineKey)
    requires FitsKey(k)
    ensures UnpackKey(PackKey(k)) == k
  {
    hide BigEndian, FromBigEndian, Pow256;
    Eight();
    BigEndianRoundTrip(k.unit, 8);
    BigEndianRoundTrip(k.template, 8);
    assert PackKey(k)[..8] == BigEndian(k.unit, 8) && PackKey(k)[8..16] == BigEndian(k.template, 8);
  }

  lemma UnpackThenPack(raw: seq<nat>)
    requires |raw| == 17 && forall i :: 0 <= i < 17 ==> raw[i] < 256
    ensures PackKey(UnpackKey(raw)) == raw && FitsKey(UnpackKey(raw))
  {
    hide BigEndian, FromBigEndian, Pow256;
    Eight();
    FromBigEndianRoundTrip(raw[..8]);
    FromBigEndianRoundTrip(raw[8..16]);
    assert raw == raw[..8] + raw[8..16] + [raw[16]];
  }

  // ------------------------------------------------ the database

  /** The table of histograms: packed keys to stored text, a later entry replacing an earlier one. */
  function Packed(hs: seq<(BaselineKey, string)>): map<seq<nat>, string> {
    if hs == [] then map[] else Packed(hs[..|hs| - 1])[PackKey(hs[|hs| - 1].0) := hs[|hs| - 1].1]
  }

  /** The table of unit profiles. */
  function Filed(ps: seq<(nat, string)>): map<nat, string> {
    if ps == [] then map[] else Filed(ps[..|ps| - 1])[ps[|ps| - 1].0 := ps[|ps| - 1].1]
  }

  /** What a load brings back. */
  datatype Stock = Stock(records: seq<Record>, histograms: map<BaselineKey, string>, profiles: map<nat, string>)

  ghost predicate PackedKey(raw: seq<nat>) {
    |raw| == 17 && forall i :: 0 <= i < 17 ==> raw[i] < 256
  }

  /** The histograms under their unpacked keys. */
  ghost predicate Unpacks(table: map<seq<nat>, string>, histograms: map<BaselineKey, string>) {
    forall k :: (k in histograms <==> FitsKey(k) && PackKey(k) in table)
                && (k in histograms ==> histograms[k] == table[PackKey(k)])
  }

  class BaselineDb {
    var templates: map<nat, Record>
    var baselines: map<seq<nat>, string>
    var profiles: map<nat, string>

    ghost predicate Valid()
      reads this
    {
      forall raw :: raw in baselines ==> PackedKey(raw)
    }

    constructor ()
      ensures Valid() && templates == map[] && baselines == map[] && profiles == map[]
    {
      templates, baselines, profiles := map[], map[], map[];
    }

    /** Replaces the contents of all three tables. */
    method Save(rs: seq<Record>, hs: seq<(BaselineKey, string)>, ps: seq<(nat, string)>)
      requires forall i :: 0 <= i < |hs| ==> FitsKey(hs[i].0)
      modifies this
      ensures Valid() && templates == Saved(rs) && baselines == Packed(hs) && profiles == Filed(ps)
    {
      templates := map[];
      for i := 0 to |rs|
        invariant templates == Saved(rs[..i])
      {
        assert rs[..i + 1][..i] == rs[..i];
        templates := templates[rs[i].id := rs[i]];
      }
      assert rs[..|rs|] == rs;
      baselines := map[];
      for i := 0 to |hs|
        invariant Valid() && baselines == Packed(hs[..i]) && templates == Saved(rs)
      {
        assert hs[..i + 1][..i] == hs[..i];
        PackedKeyFits(hs[i].0);
        baselines := baselines[PackKey(hs[i].0) := hs[i].1];
      }
      assert hs[..|hs|] == hs;
      profiles := map[];
      for i := 0 to |ps|
        invariant Valid() && profiles == Filed(ps[..i]) && templates == Saved(rs) && baselines == Packed(hs)
      {
        assert ps[..i + 1][..i] == ps[..i];
        profiles := profiles[ps[i].0 := ps[i].1];
      }
      assert ps[..|ps|] == ps;
    }

    /** Reads the templates in key order. */
    method LoadTemplates() returns (rs: seq<Record>)
      ensures rs == Loaded(templates) && (rs == [] <==> templates == map[])
    {
      hide KeysInOrder;
      var keys := KeysInOrder(templates.Keys);
      rs := [];
      for i := 0 to |keys|
        invariant rs == Loaded(templates)[..i]
      {
        rs := rs + [templates[keys[i]]];
      }
      assert rs == Loaded(templates);
      if keys == [] {
        assert templates.Keys == {};
      } else {
        assert keys[0] in templates;
      }
    }

    /** Reads the histograms and unpacks their keys. */
    method LoadHistograms() returns (histograms: map<BaselineKey, string>)
      requires Valid()
      ensures Unpacks(baselines, histograms) && (histograms == map[] <==> baselines == map[])
    {
      histograms := map[];
      var todo := baselines.Keys;
      while todo != {}
        invariant todo <= baselines.Keys
        invariant forall k :: k in histograms ==>
                    FitsKey(k) && PackKey(k) in baselines && histograms[k] == baselines[PackKey(k)]
        invariant forall raw :: raw in baselines && raw !in todo ==> UnpackKey(raw) in histograms
        decreases todo
      {
        var raw :| raw in todo;
        todo := todo - {raw};
        UnpackThenPack(raw);
        histograms := histograms[UnpackKey(raw) := baselines[raw]];
      }
      forall k | FitsKey(k) && PackKey(k) in baselines
        ensures k in histograms
      {
        PackThenUnpack(k);
      }
      if raw :| raw in baselines {
        assert UnpackKey(raw) in histograms;
      }
    }

    /** `None` when nothing at all is stored. */
    method Load() returns (stock: Option<Stock>)
      requires Valid()
      ensures stock.None? <==> templates == map[] && baselines == map[] && profiles == map[]
      ensures stock.Some? ==>
                && stock.value.records == Loaded(templates)
                && Unpacks(baselines, stock.value.histograms)
                && stock.value.profiles == profiles
    {
      var rs := LoadTemplates();
      var histograms := LoadHistograms();
      if rs == [] && histograms == map[] && profiles == map[] {
        return None;
      }
      return Some(Stock(rs, histograms, profiles));
    }
  }

  lemma PackedKeyFits(k: BaselineKey)
    requires FitsKey(k)
    ensures PackedKey(PackKey(k))
  {
  }

  lemma PackIsInjective(a: BaselineKey, b: BaselineKey)
    requires FitsKey(a) && FitsKey(b) && PackKey(a) == PackKey(b)
    ensures a == b
  {
    hide PackKey, UnpackKey;
    PackThenUnpack(a);
    PackThenUnpack(b);
  }

  ghost predicate ProperKeys(hs: seq<(BaselineKey, string)>) {
    forall i :: 0 <= i < |hs| ==> FitsKey(hs[i].0)
  }

  /** No later entry has the key of entry `i`. */
  ghost predicate LastUnderItsKey<K, V>(entries: seq<(K, V)>, i: nat)
    requires i < |entries|
  {
    forall j :: i < j < |entries| ==> entries[j].0 != entries[i].0
  }

  lemma {:induction false} PackedEntry(hs: seq<(BaselineKey, string)>, i: nat)
    requires ProperKeys(hs) && i < |hs| && LastUnderItsKey(hs, i)
    ensures PackKey(hs[i].0) in Packed(hs) && Packed(hs)[PackKey(hs[i].0)] == hs[i].1
  {
    hide PackKey;
    var n := |hs| - 1;
    if i < n {
      assert forall j :: 0 <= j < n ==> hs[..n][j] == hs[j];
      PackedEntry(hs[..n], i);
      if PackKey(hs[i].0) == PackKey(hs[n].0) {
        PackIsInjective(hs[i].0, hs[n].0);
      }
    }
  }

  lemma {:induction false} PackedOrigin(hs: seq<(BaselineKey, string)>, raw: seq<nat>) returns (i: nat)
    requires raw in Packed(hs)
    ensures i < |hs| && raw == PackKey(hs[i].0)
  {
    hide PackKey;
    var n := |hs| - 1;
    if raw == PackKey(hs[n].0) {
      i := n;
    } else {
      i := PackedOrigin(hs[..n], raw);
    }
  }

  /** Each histogram comes back under its own key, the last one if a key was saved twice, and no other key appears. */
  lemma {:induction false} HistogramsComeBack(hs: seq<(BaselineKey, string)>, loaded: map<BaselineKey, string>)
    requires ProperKeys(hs) && Unpacks(Packed(hs), loaded)
    ensures forall i :: 0 <= i < |hs| && LastUnderItsKey(hs, i) ==> hs[i].0 in loaded && loaded[hs[i].0] == hs[i].1
    ensures forall k :: k in loaded ==> exists i :: 0 <= i < |hs| && hs[i].0 == k
  {
    hide PackKey, UnpackKey, Packed, FitsKey, LastUnderItsKey;
    forall i | 0 <= i < |hs| && LastUnderItsKey(hs, i)
      ensures hs[i].0 in loaded && loaded[hs[i].0] == hs[i].1
    {
      PackedEntry(hs, i);
    }
    forall k | k in loaded
      ensures exists i :: 0 <= i < |hs| && hs[i].0 == k
    {
      var i := PackedOrigin(hs, PackKey(k));
      PackIsInjective(k, hs[i].0);
    }
  }

  /** Of the records saved under one id, the last one is stored; no other id appears. */
  lemma {:induction false} LastRecordIsStored(rs: seq<Record>, i: nat)
    requires i < |rs| && forall j :: i < j < |rs| ==> rs[j].id != rs[i].id
    ensures rs[i].id in Saved(rs) && Saved(rs)[rs[i].id] == rs[i]
    ensures forall id :: id in Saved(rs) ==> Saved(rs)[id] in rs && Saved(rs)[id].id == id
  {
    SavedContents(rs);
    var n := |rs| - 1;
    if i < n {
      assert forall j :: 0 <= j < n ==> rs[..n][j] == rs[j];
      LastRecordIsStored(rs[..n], i);
    }
  }

  // ------------------------------------------------ what survives

  ghost predicate Keyed(rs: seq<Record>) {
    forall i, j :: 0 <= i < j < |rs| ==> rs[i].id != rs[j].id
  }

  /** The table holds records of the list under their ids, and all of them if the ids differ. */
  ghost predicate Holds(table: map<nat, Record>, rs: seq<Record>) {
    && (forall id :: id in table ==> table[id] in rs && table[id].id == id)
    && (forall k :: 0 <= k < |rs| ==> rs[k].id in table)
    && (Keyed(rs) ==> forall k :: 0 <= k < |rs| ==> table[rs[k].id] == rs[k])
  }

  lemma OneMoreHeld(table: map<nat, Record>, front: seq<Record>, r: Record)
    requires Holds(table, front)
    ensures Holds(table[r.id := r], front + [r])
  {
    var rs := front + [r];
    assert forall k :: 0 <= k < |front| ==> front[k] == rs[k];
    assert rs[|front|] == r;
    if Keyed(rs) {
      assert Keyed(front);
    }
  }

  lemma {:induction false} SavedContents(rs: seq<Record>)
    ensures Holds(Saved(rs), rs)
  {
    if rs == [] {
    } else {
      var n := |rs| - 1;
      SavedContents(rs[..n]);
      OneMoreHeld(Saved(rs[..n]), rs[..n], rs[n]);
      assert rs == rs[..n] + [rs[n]];
    }
  }

  lemma KeyedGrows(rs: seq<Record>)
    requires rs != []
    ensures var n := |rs| - 1;
            Keyed(rs) <==> Keyed(rs[..n]) && rs[n].id !in Saved(rs[..n])
  {
    var n := |rs| - 1;
    var front := rs[..n];
    SavedContents(front);
    assert forall k :: 0 <= k < n ==> front[k] == rs[k];
    if rs[n].id in Saved(front) {
      var r := Saved(front)[rs[n].id];
      var k :| 0 <= k < n && front[k] == r;
      assert rs[k].id == rs[n].id;
    } else {
      assert forall k :: 0 <= k < n ==> front[k].id in Saved(front);
    }
  }

  /** One entry per record exactly when the ids are pairwise different. */
  lemma {:induction false} SavedSize(rs: seq<Record>)
    ensures |Saved(rs)| <= |rs|
    ensures |Saved(rs)| == |rs| <==> Keyed(rs)
  {
    if rs == [] {
    } else {
      var n := |rs| - 1;
      SavedSize(rs[..n]);
      KeyedGrows(rs);
      GrowthByOne(Saved(rs[..n]), rs[n]);
    }
  }

  lemma GrowthByOne(table: map<nat, Record>, r: Record)
    ensures |table[r.id := r]| == |table| + if r.id in table then 0 else 1
  {
    var after := table[r.id := r];
    assert after.Keys == table.Keys + {r.id};
    assert |after| == |after.Keys| && |table| == |table.Keys|;
    if r.id in table {
      assert after.Keys == table.Keys;
    }
  }

  ghost predicate Ordered(rs: seq<Record>) {
    forall i, j :: 0 <= i < j < |rs| ==> rs[i].order <= rs[j].order
  }

  ghost predicate OrdersUpTo(rs: seq<Record>, b: nat) {
    forall i :: 0 <= i < |rs| ==> rs[i].order <= b
  }

  lemma {:induction false} InsertBounded(sorted: seq<Record>, r: Record, b: nat)
    requires OrdersUpTo(sorted, b) && r.order <= b
    ensures OrdersUpTo(InsertByOrder(sorted, r), b)
  {
    if sorted != [] && sorted[|sorted| - 1].order > r.order {
      InsertBounded(sorted[..|sorted| - 1], r, b);
    }
  }

  lemma {:induction false} InsertKeepsOrder(sorted: seq<Record>, r: Record)
    requires Ordered(sorted)
    ensures Ordered(InsertByOrder(sorted, r))
  {
    if sorted != [] && sorted[|sorted| - 1].order > r.order {
      var n := |sorted| - 1;
      InsertKeepsOrder(sorted[..n], r);
      var front := InsertByOrder(sorted[..n], r);
      assert InsertByOrder(sorted, r) == front + [sorted[n]];
      InsertBounded(sorted[..n], r, sorted[n].order);
    }
  }

  lemma {:induction false} SortOrders(rs: seq<Record>)
    ensures Ordered(SortByOrder(rs))
  {
    if rs == [] {
    } else {
      SortOrders(rs[..|rs| - 1]);
      InsertKeepsOrder(SortByOrder(rs[..|rs| - 1]), rs[|rs| - 1]);
    }
  }

  ghost predicate Increasing(s: seq<Record>) {
    forall i, j :: 0 <= i < j < |s| ==> s[i].order < s[j].order
  }

  /** Records whose order is their position are determined by being sorted and complete. */
  lemma OrderFixesPosition(rs: seq<Record>, s: seq<Record>)
    requires |s| == |rs| && Ordered(s)
    requires forall k :: 0 <= k < |rs| ==> rs[k].order == k
    requires forall k :: 0 <= k < |s| ==> s[k] in rs
    requires forall i, j :: 0 <= i < j < |s| ==> s[i] != s[j]
    ensures s == rs
  {
    forall k | 0 <= k < |s|
      ensures s[k].order < |rs| && s[k] == rs[s[k].order]
    {
      assert s[k] in rs;
    }
    assert forall i, j :: 0 <= i < j < |s| ==> s[i].order != s[j].order;
    forall k | 0 <= k < |s|
      ensures s[k].order == k
    {
      AtLeastPosition(s, k);
      AtMostPosition(s, |rs|, k);
    }
  }

  lemma {:induction false} AtLeastPosition(s: seq<Record>, k: nat)
    requires k < |s| && Increasing(s)
    ensures s[k].order >= k
  {
    if k > 0 {
      AtLeastPosition(s, k - 1);
      assert s[k - 1].order < s[k].order;
    }
  }

  lemma {:induction false} AtMostPosition(s: seq<Record>, n: nat, k: nat)
    requires k < |s| <= n && Increasing(s)
    requires forall i :: 0 <= i < |s| ==> s[i].order < n
    ensures s[k].order <= n - |s| + k
    decreases |s| - k
  {
    if k + 1 < |s| {
      AtMostPosition(s, n, k + 1);
      assert s[k].order < s[k + 1].order;
    }
  }

  lemma {:induction false} RebuildAll(rs: seq<Record>)
    ensures |Rebuild(rs)| <= |rs|
    ensures (forall k :: 0 <= k < |rs| ==> rs[k].tokens != []) ==>
              |Rebuild(rs)| == |rs| && forall k :: 0 <= k < |rs| ==> Rebuild(rs)[k] == FromRecord(rs[k])
  {
    if rs == [] {
    } else {
      RebuildAll(rs[..|rs| - 1]);
      assert forall k :: 0 <= k < |rs| - 1 ==> rs[..|rs| - 1][k] == rs[k];
    }
  }

  /** With pairwise different ids, the load brings every stored record back, once. */
  lemma {:induction false} LoadedIsComplete(rs: seq<Record>)
    requires Keyed(rs)
    ensures |Loaded(Saved(rs))| == |rs|
    ensures forall k :: 0 <= k < |rs| ==> Loaded(Saved(rs))[k] in rs
    ensures forall i, j :: 0 <= i < j < |rs| ==> Loaded(Saved(rs))[i].id < Loaded(Saved(rs))[j].id
  {
    hide Saved, KeysInOrder;
    SavedSize(rs);
    SavedContents(rs);
    assert |Saved(rs).Keys| == |Saved(rs)|;
    var keys := KeysInOrder(Saved(rs).Keys);
    assert forall i :: 0 <= i < |keys| ==> keys[i] in keys;
  }

  lemma {:induction false} SortedLoadIsSnapshot(rs: seq<Record>)
    requires Keyed(rs) && forall k :: 0 <= k < |rs| ==> rs[k].order == k
    ensures SortByOrder(Loaded(Saved(rs))) == rs
  {
    LoadedIsComplete(rs);
    var l := Loaded(Saved(rs));
    var s := SortByOrder(l);
    SortOrders(l);
    forall k | 0 <= k < |s|
      ensures s[k] in rs
    {
      assert s[k] in multiset(s);
      assert s[k] in l;
    }
    assert forall i, j :: 0 <= i < j < |l| ==> l[i] != l[j];
    NoRepeats(l, s);
    OrderFixesPosition(rs, s);
  }

  lemma NoRepeats(l: seq<Record>, s: seq<Record>)
    requires multiset(l) == multiset(s)
    requires forall i, j :: 0 <= i < j < |l| ==> l[i] != l[j]
    ensures forall i, j :: 0 <= i < j < |s| ==> s[i] != s[j]
  {
    forall i, j | 0 <= i < j < |s|
      ensures s[i] != s[j]
    {
      if s[i] == s[j] {
        assert s == s[..i] + [s[i]] + s[i + 1..j] + [s[j]] + s[j + 1..];
        assert multiset(s)[s[i]] >= 2;
        Multiplicity(l, s[i]);
      }
    }
  }

  lemma {:induction false} Multiplicity(l: seq<Record>, r: Record)
    requires forall i, j :: 0 <= i < j < |l| ==> l[i] != l[j]
    ensures multiset(l)[r] <= 1
  {
    if l == [] {
    } else {
      Multiplicity(l[..|l| - 1], r);
      assert l == l[..|l| - 1] + [l[|l| - 1]];
      if r == l[|l| - 1] {
        assert r !in l[..|l| - 1];
      }
    }
  }

  /** The clusters after snapshot, save, load and restore. */
  function AfterRestart(cs: seq<Cluster>, maxTemplates: nat): seq<Cluster> {
    Restored(Loaded(Saved(Snapshot(cs))), maxTemplates)
  }

  /** At most as many clusters come back as there are table entries and as the bound admits. */
  lemma RestartSize(cs: seq<Cluster>, maxTemplates: nat)
    ensures |AfterRestart(cs, maxTemplates)| <= Min(maxTemplates, |Saved(Snapshot(cs))|)
  {
    var table := Saved(Snapshot(cs));
    var l := Loaded(table);
    assert |l| == |table.Keys| == |table|;
    RebuildAll(SortByOrder(l)[..Min(maxTemplates, |l|)]);
  }

  lemma SnapshotIsKeyed(cs: seq<Cluster>)
    ensures Keyed(Snapshot(cs)) <==> DistinctIds(cs)
  {
    assert forall i :: 0 <= i < |cs| ==> Snapshot(cs)[i].id == cs[i].id;
    if Keyed(Snapshot(cs)) {
      assert forall i, j :: 0 <= i < j < |cs| ==> Snapshot(cs)[i].id != Snapshot(cs)[j].id;
    }
  }

  lemma RestartKeepsDistinct(cs: seq<Cluster>, maxTemplates: nat)
    requires forall i :: 0 <= i < |cs| ==> cs[i].tokens != []
    requires DistinctIds(cs) && |cs| <= maxTemplates
    ensures AfterRestart(cs, maxTemplates) == cs
  {
    hide Saved, Loaded, SortByOrder, Keyed, DistinctIds;
    var rs := Snapshot(cs);
    SnapshotIsKeyed(cs);
    LoadedIsComplete(rs);
    SortedLoadIsSnapshot(rs);
    assert rs[..|rs|] == rs;
    RebuildAll(rs);
    assert forall i :: 0 <= i < |cs| ==> FromRecord(rs[i]) == cs[i];
  }

  /**
   A restart brings the registry back, clusters and order alike, exactly when the ids are
   pairwise different and the bound admits all clusters.
   */
  lemma RestartIsExactWhenIdsDiffer(cs: seq<Cluster>, maxTemplates: nat)
    requires forall i :: 0 <= i < |cs| ==> cs[i].tokens != []
    ensures AfterRestart(cs, maxTemplates) == cs <==> DistinctIds(cs) && |cs| <= maxTemplates
  {
    SnapshotIsKeyed(cs);
    SavedSize(Snapshot(cs));
    RestartSize(cs, maxTemplates);
    if DistinctIds(cs) && |cs| <= maxTemplates {
      RestartKeepsDistinct(cs, maxTemplates);
    }
  }

  // ------------------------------------------------ behaviour

  /** The registry after further lines. */
  function Continue(cs: seq<Cluster>, cfg: Settings, hash: HashFn, evs: seq<Event>): seq<Cluster>
    decreases |evs|
  {
    if evs == [] then cs
    else Continue(Step(cs, cfg, hash, evs[0].line, evs[0].now), cfg, hash, evs[1..])
  }

  /** The answers to further lines. */
  function Reports(cs: seq<Cluster>, cfg: Settings, hash: HashFn, evs: seq<Event>): seq<Match>
    decreases |evs|
  {
    if evs == [] then []
    else [Report(cs, cfg, hash, evs[0].line, evs[0].now)]
         + Reports(Step(cs, cfg, hash, evs[0].line, evs[0].now), cfg, hash, evs[1..])
  }

  lemma {:induction false} ContinueRun(cfg: Settings, hash: HashFn, evs: seq<Event>, more: seq<Event>)
    ensures Continue(Clusters(cfg, hash, evs), cfg, hash, more) == Clusters(cfg, hash, evs + more)
    decreases |more|
  {
    if more == [] {
      assert evs + more == evs;
    } else {
      assert (evs + [more[0]])[..|evs|] == evs;
      assert evs + more == (evs + [more[0]]) + more[1..];
      ContinueRun(cfg, hash, evs + [more[0]], more[1..]);
    }
  }

  /**
   A restart between any two lines of a run is not observable: all later answers are those of
   the engine that never stopped, and the registry ends in the same state.
   */
  lemma {:induction false} RestartIsInvisible(cfg: Settings, hash: HashFn, evs: seq<Event>, more: seq<Event>)
    requires Sane(cfg) && cfg.maxTemplates >= 1 && forall k :: 0 <= k < |evs| ==> SpaceFree(evs[k].line)
    requires FoundersDiffer(Traced(cfg, hash, evs).live) && HashSeparates(hash, Traced(cfg, hash, evs).live)
    ensures
      var running := Clusters(cfg, hash, evs);
      var restarted := AfterRestart(running, cfg.maxTemplates);
      && Reports(restarted, cfg, hash, more) == Reports(running, cfg, hash, more)
      && Continue(restarted, cfg, hash, more) == Clusters(cfg, hash, evs + more)
  {
    var r := Traced(cfg, hash, evs);
    IdsAreDistinctWhenHashSeparates(cfg, hash, evs);
    ClustersSummariseTheirLines(cfg, hash, evs);
    RegistryIsBounded(cfg, hash, evs);
    RestartIsExactWhenIdsDiffer(r.clusters, cfg.maxTemplates);
    ContinueRun(cfg, hash, evs, more);
  }

  // ------------------------------------------------ a smaller bound

  /** The clusters that can be rebuilt. */
  function WithTokens(cs: seq<Cluster>): seq<Cluster> {
    if cs == [] then []
    else WithTokens(cs[..|cs| - 1]) + if cs[|cs| - 1].tokens == [] then [] else [cs[|cs| - 1]]
  }

  lemma {:induction false} RebuildSnapshot(cs: seq<Cluster>, k: nat)
    requires k <= |cs|
    ensures Rebuild(Snapshot(cs)[..k]) == WithTokens(cs[..k])
  {
    if k > 0 {
      RebuildSnapshot(cs, k - 1);
      assert Snapshot(cs)[..k][..k - 1] == Snapshot(cs)[..k - 1] && cs[..k][..k - 1] == cs[..k - 1];
      assert FromRecord(Snapshot(cs)[k - 1]) == cs[k - 1];
    }
  }

  /**
   With pairwise different ids, a restart under any bound keeps the first clusters of the registry, as
   many as the bound admits, each unchanged and in order.
   */
  lemma RestartKeepsTheFirst(cs: seq<Cluster>, maxTemplates: nat)
    requires DistinctIds(cs)
    ensures AfterRestart(cs, maxTemplates) == WithTokens(cs[..Min(maxTemplates, |cs|)])
    ensures (forall i :: 0 <= i < |cs| ==> cs[i].tokens != []) ==>
              AfterRestart(cs, maxTemplates) == cs[..Min(maxTemplates, |cs|)]
  {
    hide Saved, Loaded, SortByOrder, Keyed, DistinctIds;
    var k := Min(maxTemplates, |cs|);
    SnapshotIsKeyed(cs);
    LoadedIsComplete(Snapshot(cs));
    SortedLoadIsSnapshot(Snapshot(cs));
    RebuildSnapshot(cs, k);
    AllHaveTokens(cs[..k]);
  }

  lemma {:induction false} AllHaveTokens(cs: seq<Cluster>)
    ensures (forall i :: 0 <= i < |cs| ==> cs[i].tokens != []) ==> WithTokens(cs) == cs
  {
    if cs == [] {
    } else {
      AllHaveTokens(cs[..|cs| - 1]);
    }
  }

  /** Of the profiles stored under one key, the last one comes back; no other key appears. */
  lemma {:induction false} ProfilesComeBack(ps: seq<(nat, string)>, i: nat)
    requires i < |ps| && LastUnderItsKey(ps, i)
    ensures ps[i].0 in Filed(ps) && Filed(ps)[ps[i].0] == ps[i].1
    ensures forall key :: key in Filed(ps) ==> exists j :: 0 <= j < |ps| && ps[j].0 == key
  {
    var n := |ps| - 1;
    if i < n {
      assert forall j :: 0 <= j < n ==> ps[..n][j] == ps[j];
      ProfilesComeBack(ps[..n], i);
    }
    forall key | key in Filed(ps)
      ensures exists j :: 0 <= j < |ps| && ps[j].0 == key
    {
      var j := FiledOrigin(ps, key);
    }
  }

  lemma {:induction false} FiledOrigin(ps: seq<(nat, string)>, key: nat) returns (j: nat)
    requires key in Filed(ps)
    ensures j < |ps| && ps[j].0 == key
  {
    var n := |ps| - 1;
    if key == ps[n].0 {
      j := n;
    } else {
      j := FiledOrigin(ps[..n], key);
    }
  }
}
