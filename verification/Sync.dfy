/**
 Incremental scan of the source directories: only files whose size or modification time changed
 are read and hashed.

 A scan is given the metadata found and the contents that can be read; hashing and extraction are
 functions of the content.
 */
module Sync {
  import opened Common

  /** `key` is the path as text, if it is valid text. */
  datatype Meta = Meta(key: Option<string>, root: nat, size: nat, mtime: int)

  datatype Extract = Extract(title: Option<string>, links: seq<string>, terms: seq<string>)

  datatype Record = Record(
    root: nat, size: nat, mtime: int, hash: nat, changedAt: int, extract: Extract,
    llmHash: Option<nat>, llmEdges: seq<string>)

  datatype Rules = Rules(maxFileBytes: nat, hash: string -> nat, extract: string -> Extract)

  datatype Report = Report(
    files: nat, added: nat, changed: nat, removed: nat, skipped: nat, truncated: bool, unreadableDirs: nat)

  predicate Dirty(r: Report) {
    r.added + r.changed + r.removed > 0
  }

  /** What the source directories look like during one scan. */
  datatype Sources = Sources(metas: seq<Meta>, contents: map<string, string>, truncated: bool, unreadableDirs: nat)

  /** A scan in progress. */
  datatype Progress = Progress(files: map<string, Record>, present: set<string>, added: nat, changed: nat, skipped: nat)

  function Skip(p: Progress): Progress {
    p.(skipped := p.skipped + 1)
  }

  function NewRecord(rules: Rules, m: Meta, content: string, now: int, previous: Option<Record>): Record {
    Record(m.root, m.size, m.mtime, rules.hash(content), now, rules.extract(content),
           if previous.Some? then previous.value.llmHash else None,
           if previous.Some? then previous.value.llmEdges else [])
  }

  function Lookup<T>(files: map<string, T>, key: string): Option<T> {
    if key in files then Some(files[key]) else None
  }

  predicate Unchanged(r: Record, m: Meta) {
    r.size == m.size && r.mtime == m.mtime
  }

  /** One file with a usable path and size. */
  function Visited(rules: Rules, p: Progress, m: Meta, key: string, content: Option<string>, now: int): Progress {
    var q := if key in p.files then p.(files := p.files[key := p.files[key].(root := m.root)]) else p;
    if key in q.files && Unchanged(q.files[key], m) then q.(present := q.present + {key})
    else if content.None? then Skip(q)
    else if key in q.files && q.files[key].hash == rules.hash(content.value) then
      q.(present := q.present + {key}, files := q.files[key := q.files[key].(size := m.size, mtime := m.mtime)])
    else
      q.(present := q.present + {key},
         files := q.files[key := NewRecord(rules, m, content.value, now, Lookup(q.files, key))],
         added := q.added + if key in q.files then 0 else 1,
         changed := q.changed + if key in q.files then 1 else 0)
  }

  function OneFile(rules: Rules, p: Progress, m: Meta, contents: map<string, string>, now: int): Progress {
    if m.key.None? || m.size > rules.maxFileBytes then Skip(p)
    else Visited(rules, p, m, m.key.value, Lookup(contents, m.key.value), now)
  }

  function Walk(rules: Rules, files: map<string, Record>, metas: seq<Meta>, contents: map<string, string>,
      now: int): Progress {
    if metas == [] then Progress(files, {}, 0, 0, 0)
    else OneFile(rules, Walk(rules, files, metas[..|metas| - 1], contents, now), metas[|metas| - 1], contents, now)
  }

  function Restrict(files: map<string, Record>, present: set<string>): map<string, Record> {
    map k | k in files && k in present :: files[k]
  }

  /** The files known after a scan. */
  function Scanned(rules: Rules, files: map<string, Record>, src: Sources, now: int): map<string, Record> {
    var p := Walk(rules, files, src.metas, src.contents, now);
    Restrict(p.files, p.present)
  }

  function ReportOf(rules: Rules, files: map<string, Record>, src: Sources, now: int): Report {
    var p := Walk(rules, files, src.metas, src.contents, now);
    var kept := Restrict(p.files, p.present);
    Report(|kept|, p.added, p.changed, SatSub(|p.files|, |kept|), p.skipped, src.truncated, src.unreadableDirs)
  }

  class Syncer {
    const rules: Rules
    var files: map<string, Record>

    constructor (rules: Rules, files: map<string, Record>)
      ensures this.rules == rules && this.files == files
    {
      this.rules, this.files := rules, files;
    }

    /** Handles one usable path; tells whether it counts as present, added, changed or skipped. */
    method Visit(m: Meta, key: string, content: Option<string>, now: int, ghost p: Progress)
      returns (here: bool, added: nat, changed: nat, skipped: nat)
      requires p.files == files
      modifies this
      ensures Visited(rules, p, m, key, content, now)
              == Progress(files, if here then p.present + {key} else p.present,
                          p.added + added, p.changed + changed, p.skipped + skipped)
    {
      added, changed, skipped := 0, 0, 0;
      if key in files {
        files := files[key := files[key].(root := m.root)];
        if files[key].size == m.size && files[key].mtime == m.mtime {
          return true, 0, 0, 0;
        }
      }
      if content.None? {
        return false, 0, 0, 1;
      }
      var hash := rules.hash(content.value);
      if key in files {
        if files[key].hash == hash {
          files := files[key := files[key].(size := m.size, mtime := m.mtime)];
          return true, 0, 0, 0;
        }
      }
      var previous := Lookup(files, key);
      if previous.Some? {
        changed := 1;
      } else {
        added := 1;
      }
      files := files[key := NewRecord(rules, m, content.value, now, previous)];
      here := true;
    }

    method ScanOnce(src: Sources, now: int) returns (report: Report)
      modifies this
      ensures files == Scanned(rules, old(files), src, now)
      ensures report == ReportOf(rules, old(files), src, now)
    {
      hide Visited;
      ghost var before := files;
      var present: set<string>, added, changed, skipped := {}, 0, 0, 0;
      for i := 0 to |src.metas|
        invariant Progress(files, present, added, changed, skipped)
                  == Walk(rules, before, src.metas[..i], src.contents, now)
      {
        assert src.metas[..i + 1][..i] == src.metas[..i];
        var m := src.metas[i];
        if m.key.None? || m.size > rules.maxFileBytes {
          skipped := skipped + 1;
          continue;
        }
        var key := m.key.value;
        ghost var p := Progress(files, present, added, changed, skipped);
        var here, a, c, s := Visit(m, key, Lookup(src.contents, key), now, p);
        if here {
          present := present + {key};
        }
        added, changed, skipped := added + a, changed + c, skipped + s;
      }
      assert src.metas[..|src.metas|] == src.metas;
      var total := |files|;
      files := Restrict(files, present);
      report := Report(|files|, added, changed, SatSub(total, |files|), skipped, src.truncated, src.unreadableDirs);
    }
  }

  // ------------------------------------------------ one key at a time

  ghost predicate DistinctKeys(metas: seq<Meta>) {
    forall i, j :: 0 <= i < j < |metas| && metas[i].key.Some? ==> metas[i].key != metas[j].key
  }

  /** The metadata found for a path. */
  function MetaOf(metas: seq<Meta>, key: string): Option<Meta> {
    if metas == [] then None
    else if metas[|metas| - 1].key == Some(key) then Some(metas[|metas| - 1])
    else MetaOf(metas[..|metas| - 1], key)
  }

  lemma {:induction false} MetaOfIsThere(metas: seq<Meta>, key: string)
    ensures MetaOf(metas, key).Some? ==> MetaOf(metas, key).value in metas && MetaOf(metas, key).value.key == Some(key)
    ensures MetaOf(metas, key).None? ==> forall i :: 0 <= i < |metas| ==> metas[i].key != Some(key)
  {
    if metas == [] {
    } else {
      MetaOfIsThere(metas[..|metas| - 1], key);
    }
  }

  /** What one scan makes of one path: the record afterwards, if it is still known. */
  function Outcome(rules: Rules, before: Option<Record>, meta: Option<Meta>, content: Option<string>,
      now: int): Option<Record> {
    if meta.None? || meta.value.size > rules.maxFileBytes then None
    else if before.Some? && Unchanged(before.value, meta.value) then Some(before.value.(root := meta.value.root))
    else if content.None? then None
    else if before.Some? && before.value.hash == rules.hash(content.value) then
      Some(before.value.(root := meta.value.root, size := meta.value.size, mtime := meta.value.mtime))
    else Some(NewRecord(rules, meta.value, content.value, now, before))
  }

  /** How far the walk has brought one path. */
  ghost predicate Settled(rules: Rules, files: map<string, Record>, p: Progress, metas: seq<Meta>,
                          contents: map<string, string>, now: int, key: string) {
    var result := Outcome(rules, Lookup(files, key), MetaOf(metas, key), Lookup(contents, key), now);
    && (key in p.present <==> result.Some?)
    && (result.Some? ==> Lookup(p.files, key) == result)
    && (MetaOf(metas, key).None? ==> Lookup(p.files, key) == Lookup(files, key))
    && (key in p.files <==> key in files || result.Some?)
  }

  lemma OtherPathsStay(rules: Rules, p: Progress, m: Meta, contents: map<string, string>, now: int, key: string)
    requires m.key != Some(key)
    ensures var q := OneFile(rules, p, m, contents, now);
            (key in q.present <==> key in p.present) && Lookup(q.files, key) == Lookup(p.files, key)
  {
  }

  /** The one visit of a path decides it. */
  lemma OwnVisitSettles(rules: Rules, p: Progress, m: Meta, contents: map<string, string>, now: int, key: string)
    requires m.key == Some(key) && key !in p.present
    ensures var q := OneFile(rules, p, m, contents, now);
            var result := Outcome(rules, Lookup(p.files, key), Some(m), Lookup(contents, key), now);
            && (key in q.present <==> result.Some?)
            && (result.Some? ==> Lookup(q.files, key) == result)
            && (key in q.files <==> key in p.files || result.Some?)
  {
  }

  lemma {:induction false} WalkSettles(rules: Rules, files: map<string, Record>, metas: seq<Meta>,
                                       contents: map<string, string>, now: int, key: string)
    requires DistinctKeys(metas)
    ensures Settled(rules, files, Walk(rules, files, metas, contents, now), metas, contents, now, key)
  {
    hide OneFile, Outcome;
    if metas == [] {
      NothingFound(rules, Lookup(files, key), Lookup(contents, key), now);
    } else {
      var n := |metas| - 1;
      var p := Walk(rules, files, metas[..n], contents, now);
      WalkSettles(rules, files, metas[..n], contents, now, key);
      if metas[n].key == Some(key) {
        MetaOfIsThere(metas[..n], key);
        NothingFound(rules, Lookup(files, key), Lookup(contents, key), now);
        OwnVisitSettles(rules, p, metas[n], contents, now, key);
      } else {
        OtherPathsStay(rules, p, metas[n], contents, now, key);
      }
    }
  }

  lemma NothingFound(rules: Rules, before: Option<Record>, content: Option<string>, now: int)
    ensures Outcome(rules, before, None, content, now) == None
  {
  }

  /** A scan treats every path on its own, whatever the other files do. */
  lemma {:induction false} ScanIsPerKey(rules: Rules, files: map<string, Record>, src: Sources, now: int, key: string)
    requires DistinctKeys(src.metas)
    ensures Lookup(Scanned(rules, files, src, now), key)
            == Outcome(rules, Lookup(files, key), MetaOf(src.metas, key), Lookup(src.contents, key), now)
  {
    WalkSettles(rules, files, src.metas, src.contents, now, key);
  }

  // ------------------------------------------------ the report

  function AddedKeys(before: map<string, Record>, after: map<string, Record>): set<string> {
    after.Keys - before.Keys
  }

  function ChangedKeys(before: map<string, Record>, after: map<string, Record>): set<string> {
    set k | k in before && k in after && before[k].hash != after[k].hash
  }

  function RemovedKeys(before: map<string, Record>, after: map<string, Record>): set<string> {
    before.Keys - after.Keys
  }

  /** A walk in progress has counted exactly what it added and changed so far. */
  ghost predicate Counted(files: map<string, Record>, p: Progress) {
    && p.added == |AddedKeys(files, p.files)| && p.changed == |ChangedKeys(files, p.files)|
    && p.present <= p.files.Keys && files.Keys <= p.files.Keys
    && AddedKeys(files, p.files) <= p.present && ChangedKeys(files, p.files) <= p.present
  }

  lemma {:induction false} WalkCounts(rules: Rules, files: map<string, Record>, metas: seq<Meta>,
                                      contents: map<string, string>, now: int)
    requires DistinctKeys(metas)
    ensures Counted(files, Walk(rules, files, metas, contents, now))
  {
    hide Visited, Counted, Settled;
    if metas == [] {
      NothingCounted(files);
    } else {
      var n := |metas| - 1;
      WalkCounts(rules, files, metas[..n], contents, now);
      var p := Walk(rules, files, metas[..n], contents, now);
      if metas[n].key.Some? && metas[n].size <= rules.maxFileBytes {
        var key := metas[n].key.value;
        UntouchedSoFar(rules, files, metas, contents, now, key);
        VisitCounts(rules, files, p, metas[n], key, Lookup(contents, key), now);
      } else {
        SkipCounts(files, p);
      }
    }
  }

  lemma NothingCounted(files: map<string, Record>)
    ensures Counted(files, Progress(files, {}, 0, 0, 0))
  {
    assert AddedKeys(files, files) == {} && ChangedKeys(files, files) == {};
  }

  lemma SkipCounts(files: map<string, Record>, p: Progress)
    requires Counted(files, p)
    ensures Counted(files, Skip(p))
  {
  }

  /** A path is not touched before its own metadata is reached. */
  lemma UntouchedSoFar(rules: Rules, files: map<string, Record>, metas: seq<Meta>, contents: map<string, string>,
      now: int, key: string)
    requires metas != [] && DistinctKeys(metas) && metas[|metas| - 1].key == Some(key)
    ensures Lookup(Walk(rules, files, metas[..|metas| - 1], contents, now).files, key) == Lookup(files, key)
  {
    var n := |metas| - 1;
    WalkSettles(rules, files, metas[..n], contents, now, key);
    MetaOfIsThere(metas[..n], key);
    assert MetaOf(metas[..n], key).None?;
  }

  /** Replacing a record by one with the same hash counts as nothing. */
  lemma CountSame(files: map<string, Record>, p: Progress, key: string, r: Record)
    requires Counted(files, p) && key in p.files && r.hash == p.files[key].hash
    ensures Counted(files, p.(files := p.files[key := r]))
    ensures Counted(files, p.(files := p.files[key := r], present := p.present + {key}))
  {
    var q := p.files[key := r];
    assert AddedKeys(files, q) == AddedKeys(files, p.files);
    assert ChangedKeys(files, q) == ChangedKeys(files, p.files);
  }

  lemma GrownByOne<T>(s: set<T>, x: T)
    requires x !in s
    ensures |s + {x}| == |s| + 1
  {
  }

  lemma NewKeyIsAdded(files: map<string, Record>, before: map<string, Record>, key: string, r: Record)
    requires key !in before && key !in files
    ensures AddedKeys(files, before[key := r]) == AddedKeys(files, before) + {key}
    ensures ChangedKeys(files, before[key := r]) == ChangedKeys(files, before)
  {
    assert ChangedKeys(files, before[key := r]) == ChangedKeys(files, before);
  }

  lemma CountAdded(files: map<string, Record>, p: Progress, key: string, r: Record)
    requires Counted(files, p) && key !in p.files
    ensures Counted(files, p.(files := p.files[key := r], present := p.present + {key}, added := p.added + 1))
  {
    assert key !in files && key !in AddedKeys(files, p.files);
    NewKeyIsAdded(files, p.files, key, r);
    GrownByOne(AddedKeys(files, p.files), key);
    hide AddedKeys, ChangedKeys;
  }

  lemma CountChanged(files: map<string, Record>, p: Progress, key: string, r: Record)
    requires Counted(files, p) && key in p.files && key in files && p.files[key].hash == files[key].hash != r.hash
    ensures Counted(files, p.(files := p.files[key := r], present := p.present + {key}, changed := p.changed + 1))
  {
    var q := p.files[key := r];
    assert AddedKeys(files, q) == AddedKeys(files, p.files);
    assert ChangedKeys(files, q) == ChangedKeys(files, p.files) + {key};
  }

  lemma VisitCounts(rules: Rules, files: map<string, Record>, p: Progress, m: Meta, key: string,
      content: Option<string>, now: int)
    requires Counted(files, p) && Lookup(p.files, key) == Lookup(files, key)
    ensures Counted(files, Visited(rules, p, m, key, content, now))
  {
    hide Counted;
    var q := Visited(rules, p, m, key, content, now);
    if key !in p.files {
      if content.None? {
        SkipCounts(files, p);
      } else {
        CountAdded(files, p, key, NewRecord(rules, m, content.value, now, None));
      }
    } else {
      var r := p.files[key].(root := m.root);
      var o := p.(files := p.files[key := r]);
      CountSame(files, p, key, r);
      if !Unchanged(r, m) {
        if content.None? {
          SkipCounts(files, o);
        } else if r.hash == rules.hash(content.value) {
          CountSame(files, o, key, r.(size := m.size, mtime := m.mtime));
        } else {
          CountChanged(files, o, key, NewRecord(rules, m, content.value, now, Some(r)));
        }
      }
    }
  }

  lemma CountersAreExact(files: map<string, Record>, p: Progress)
    requires Counted(files, p)
    ensures p.added == |AddedKeys(files, p.files)| && p.changed == |ChangedKeys(files, p.files)|
  {
  }

  lemma KeptCountsAlike(files: map<string, Record>, p: Progress, after: map<string, Record>)
    requires Counted(files, p) && after == Restrict(p.files, p.present)
    ensures AddedKeys(files, after) == AddedKeys(files, p.files)
            && ChangedKeys(files, after) == ChangedKeys(files, p.files)
  {
    assert AddedKeys(files, after) == AddedKeys(files, p.files);
    assert ChangedKeys(files, after) == ChangedKeys(files, p.files);
  }

  lemma SizesAddUp<T>(whole: set<T>, a: set<T>, b: set<T>)
    requires whole == a + b && a !! b
    ensures |whole| == |a| + |b|
  {
  }

  lemma ReportSums(files: map<string, Record>, p: Progress, after: map<string, Record>)
    requires Counted(files, p) && after == Restrict(p.files, p.present)
    ensures |p.files| == |files| + |AddedKeys(files, p.files)|
    ensures |p.files| == |after| + |RemovedKeys(files, after)|
  {
    KeySets(files, p, after);
    hide ChangedKeys, AddedKeys, RemovedKeys, Restrict, Counted;
    SizesAddUp(p.files.Keys, files.Keys, AddedKeys(files, p.files));
    SizesAddUp(p.files.Keys, after.Keys, RemovedKeys(files, after));
    assert |p.files| == |p.files.Keys| && |files| == |files.Keys| && |after| == |after.Keys|;
  }

  lemma KeySets(files: map<string, Record>, p: Progress, after: map<string, Record>)
    requires Counted(files, p) && after == Restrict(p.files, p.present)
    ensures p.files.Keys == files.Keys + AddedKeys(files, p.files) && files.Keys !! AddedKeys(files, p.files)
    ensures p.files.Keys == after.Keys + RemovedKeys(files, after) && after.Keys !! RemovedKeys(files, after)
  {
    hide ChangedKeys;
  }

  /** The report counts exactly the paths that appeared, changed their content, or disappeared. */
  lemma ReportIsExact(rules: Rules, files: map<string, Record>, src: Sources, now: int)
    requires DistinctKeys(src.metas)
    ensures var after, r := Scanned(rules, files, src, now), ReportOf(rules, files, src, now);
            && r.added == |AddedKeys(files, after)|
            && r.changed == |ChangedKeys(files, after)|
            && r.removed == |RemovedKeys(files, after)|
            && r.files == |after| == |files| + r.added - r.removed
  {
    hide Walk, Counted, AddedKeys, ChangedKeys, RemovedKeys, Restrict;
    var p, after := Walk(rules, files, src.metas, src.contents, now), Scanned(rules, files, src, now);
    WalkCounts(rules, files, src.metas, src.contents, now);
    CountersAreExact(files, p);
    KeptCountsAlike(files, p, after);
    ReportSums(files, p, after);
  }

  /** The part of a record that shows in the output, apart from where the file lies. */
  ghost predicate SameContent(a: Record, b: Record) {
    a.hash == b.hash && a.extract == b.extract && a.changedAt == b.changedAt && a.llmHash == b.llmHash
        && a.llmEdges == b.llmEdges
  }

  /** A scan that is not dirty changed nothing but roots, sizes and times. */
  lemma DirtyExactlyWhen(rules: Rules, files: map<string, Record>, src: Sources, now: int)
    requires DistinctKeys(src.metas)
    ensures var after := Scanned(rules, files, src, now);
            !Dirty(ReportOf(rules, files, src, now)) <==>
              after.Keys == files.Keys && forall k :: k in files ==> SameContent(files[k], after[k])
  {
    var after := Scanned(rules, files, src, now);
    ReportIsExact(rules, files, src, now);
    forall k | k in files && k in after
      ensures SameContent(files[k], after[k]) <==> k !in ChangedKeys(files, after)
    {
      ScanIsPerKey(rules, files, src, now, k);
    }
    var added, removed, changed := AddedKeys(files, after), RemovedKeys(files, after), ChangedKeys(files, after);
    assert !Dirty(ReportOf(rules, files, src, now)) <==> added == {} && removed == {} && changed == {};
    assert added == {} && removed == {} <==> after.Keys == files.Keys;
    assert changed == {} <==> forall k :: k in files && k in after ==> SameContent(files[k], after[k]);
  }

  /** A second scan of unchanged sources changes nothing and is not dirty. */
  lemma SecondScanIsClean(rules: Rules, files: map<string, Record>, src: Sources, now: int, later: int)
    requires DistinctKeys(src.metas)
    ensures var once := Scanned(rules, files, src, now);
            Scanned(rules, once, src, later) == once && !Dirty(ReportOf(rules, once, src, later))
  {
    var once := Scanned(rules, files, src, now);
    var twice := Scanned(rules, once, src, later);
    forall k
      ensures Lookup(twice, k) == Lookup(once, k)
    {
      ScanIsPerKey(rules, files, src, now, k);
      ScanIsPerKey(rules, once, src, later, k);
    }
    assert once.Keys == twice.Keys by {
      forall k
        ensures k in once.Keys <==> k in twice.Keys
      {
        assert Lookup(twice, k) == Lookup(once, k);
      }
    }
    forall k | k in once
      ensures twice[k] == once[k]
    {
      assert Lookup(twice, k) == Lookup(once, k);
    }
    DirtyExactlyWhen(rules, once, src, later);
  }

  /** Results of the language model survive every scan; the time of change moves exactly with the content. */
  lemma AnalysisIsKept(rules: Rules, files: map<string, Record>, src: Sources, now: int, key: string)
    requires DistinctKeys(src.metas) && key in files && key in Scanned(rules, files, src, now)
    ensures var before, after := files[key], Scanned(rules, files, src, now)[key];
            && after.llmHash == before.llmHash && after.llmEdges == before.llmEdges
            && after.changedAt == (if after.hash == before.hash then before.changedAt else now)
            && (before.llmHash == Some(before.hash)
               ==> (after.llmHash == Some(after.hash) <==> after.hash == before.hash))
  {
    ScanIsPerKey(rules, files, src, now, key);
  }

  // ------------------------------------------------ which files are known, and what is skipped

  /** The file has a usable path and size, and is either readable or known with its size and time. */
  ghost predicate Usable(rules: Rules, files: map<string, Record>, contents: map<string, string>, m: Meta) {
    && m.key.Some? && m.size <= rules.maxFileBytes
    && (m.key.value in contents
        || (m.key.value in files && files[m.key.value].size == m.size && files[m.key.value].mtime == m.mtime))
  }

  /** A path is known after a scan exactly if the scan found a usable file for it. */
  lemma {:induction false} KnownExactlyWhen(rules: Rules, files: map<string, Record>, src: Sources, now: int,
      key: string)
    requires DistinctKeys(src.metas)
    ensures key in Scanned(rules, files, src, now) <==>
            exists i :: 0 <= i < |src.metas| && src.metas[i].key == Some(key)
                        && Usable(rules, files, src.contents, src.metas[i])
  {
    ScanIsPerKey(rules, files, src, now, key);
    MetaOfIsThere(src.metas, key);
    var m := MetaOf(src.metas, key);
    if m.Some? {
      var i :| 0 <= i < |src.metas| && src.metas[i] == m.value;
      assert forall j :: 0 <= j < |src.metas| && src.metas[j].key == Some(key) ==> j == i;
    }
  }

  /** A file seen for the first time has changed now, describes its content and has not been analysed. */
  lemma {:induction false} NewFileIsRecorded(rules: Rules, files: map<string, Record>, src: Sources, now: int, i: nat)
    requires DistinctKeys(src.metas) && i < |src.metas| && Usable(rules, files, src.contents, src.metas[i])
    requires src.metas[i].key.value !in files
    ensures
      var m, after := src.metas[i], Scanned(rules, files, src, now);
      && m.key.value in after
      && var r, content := after[m.key.value], src.contents[m.key.value];
         && r.root == m.root && r.size == m.size && r.mtime == m.mtime && r.changedAt == now
         && r.hash == rules.hash(content) && r.extract == rules.extract(content)
         && r.llmHash == None && r.llmEdges == []
  {
    var key := src.metas[i].key.value;
    ScanIsPerKey(rules, files, src, now, key);
    MetaOfIsThere(src.metas, key);
    var m := MetaOf(src.metas, key).value;
    var j :| 0 <= j < |src.metas| && src.metas[j] == m;
    assert i == j;
  }

  /** What a known file's record becomes: place, size and time as found; hash and extract follow a change of content. */
  lemma {:induction false} KnownFileIsUpdated(rules: Rules, files: map<string, Record>, src: Sources, now: int, i: nat)
    requires DistinctKeys(src.metas) && i < |src.metas| && Usable(rules, files, src.contents, src.metas[i])
    requires src.metas[i].key.value in files
    ensures
      var m, after := src.metas[i], Scanned(rules, files, src, now);
      && m.key.value in after
      && var r, old' := after[m.key.value], files[m.key.value];
         && r.root == m.root && r.size == m.size && r.mtime == m.mtime
         && (if old'.size == m.size && old'.mtime == m.mtime then r.hash == old'.hash && r.extract == old'.extract
             else
               && r.hash == rules.hash(src.contents[m.key.value])
               && r.extract == if r.hash == old'.hash then old'.extract else rules.extract(src.contents[m.key.value]))
  {
    var key := src.metas[i].key.value;
    ScanIsPerKey(rules, files, src, now, key);
    MetaOfIsThere(src.metas, key);
    var m := MetaOf(src.metas, key).value;
    var j :| 0 <= j < |src.metas| && src.metas[j] == m;
    assert i == j;
  }

  ghost function Unusable(rules: Rules, files: map<string, Record>, contents: map<string, string>,
      metas: seq<Meta>): set<nat> {
    set i | 0 <= i < |metas| && !Usable(rules, files, contents, metas[i])
  }

  /** One file is skipped exactly if it is not usable. */
  lemma OneFileSkips(rules: Rules, p: Progress, m: Meta, contents: map<string, string>, now: int)
    ensures OneFile(rules, p, m, contents, now).skipped
            == p.skipped + if Usable(rules, p.files, contents, m) then 0 else 1
  {
  }

  lemma {:induction false} WalkSkips(rules: Rules, files: map<string, Record>, metas: seq<Meta>,
                                     contents: map<string, string>, now: int)
    requires DistinctKeys(metas)
    ensures Walk(rules, files, metas, contents, now).skipped == |Unusable(rules, files, contents, metas)|
  {
    hide OneFile, Usable, Unusable;
    if metas == [] {
      NothingUnusable(rules, files, contents);
    } else {
      var n := |metas| - 1;
      var p := Walk(rules, files, metas[..n], contents, now);
      WalkSkips(rules, files, metas[..n], contents, now);
      OneFileSkips(rules, p, metas[n], contents, now);
      if metas[n].key.Some? {
        UntouchedSoFar(rules, files, metas, contents, now, metas[n].key.value);
      }
      SameUsability(rules, files, p.files, contents, metas[n]);
      OneMoreUnusable(rules, files, contents, metas);
    }
  }

  lemma NothingUnusable(rules: Rules, files: map<string, Record>, contents: map<string, string>)
    ensures Unusable(rules, files, contents, []) == {}
  {
  }

  lemma OneMoreUnusable(rules: Rules, files: map<string, Record>, contents: map<string, string>, metas: seq<Meta>)
    requires metas != []
    ensures var n := |metas| - 1;
            |Unusable(rules, files, contents, metas)|
            == |Unusable(rules, files, contents, metas[..n])|
               + if Usable(rules, files, contents, metas[n]) then 0 else 1
  {
    hide Usable;
    var n := |metas| - 1;
    var before, all := Unusable(rules, files, contents, metas[..n]), Unusable(rules, files, contents, metas);
    assert forall i :: 0 <= i < n ==> metas[..n][i] == metas[i];
    if Usable(rules, files, contents, metas[n]) {
      assert all == before;
    } else {
      assert all == before + {n};
    }
  }

  lemma SameUsability(rules: Rules, files: map<string, Record>, others: map<string, Record>,
                      contents: map<string, string>, m: Meta)
    requires m.key.Some? ==> Lookup(others, m.key.value) == Lookup(files, m.key.value)
    ensures Usable(rules, others, contents, m) <==> Usable(rules, files, contents, m)
  {
  }

  /** The report counts the files skipped and passes on what the walk over the directories noticed. */
  lemma SkippedAreTheUnusable(rules: Rules, files: map<string, Record>, src: Sources, now: int)
    requires DistinctKeys(src.metas)
    ensures var r := ReportOf(rules, files, src, now);
            && r.skipped == |Unusable(rules, files, src.contents, src.metas)|
            && r.truncated == src.truncated && r.unreadableDirs == src.unreadableDirs
  {
    WalkSkips(rules, files, src.metas, src.contents, now);
  }
}
