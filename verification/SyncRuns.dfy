/** Scanning incrementally, over any history of scans, finds what a scan from scratch finds. */
module SyncRuns {
  import opened Common
  import opened Sync

  /** The part of a record that depends only on what is on disk. */
  datatype View = View(root: nat, size: nat, mtime: int, hash: nat, extract: Extract)

  function ViewOf(r: Record): View {
    View(r.root, r.size, r.mtime, r.hash, r.extract)
  }

  function ViewsOf(files: map<string, Record>): map<string, View> {
    map k | k in files :: ViewOf(files[k])
  }

  /** `contentAt` tells the content a file has whenever it has the given size and time. */
  type Timeline = (string, nat, int) -> string

  /** Everything readable has the content its size and time stand for. */
  ghost predicate Stable(src: Sources, contentAt: Timeline) {
    forall i :: 0 <= i < |src.metas| && src.metas[i].key.Some? && src.metas[i].key.value in src.contents ==>
      src.contents[src.metas[i].key.value] == contentAt(src.metas[i].key.value, src.metas[i].size, src.metas[i].mtime)
  }

  ghost predicate GenuineRecord(rules: Rules, r: Record, content: string) {
    r.hash == rules.hash(content) && r.extract == rules.extract(content)
  }

  /** Every record describes the content its size and time stand for. */
  ghost predicate Genuine(rules: Rules, files: map<string, Record>, contentAt: Timeline) {
    forall k :: k in files ==> GenuineRecord(rules, files[k], contentAt(k, files[k].size, files[k].mtime))
  }

  /** Two versions of one file with the same hash have the same title, links and terms. */
  ghost predicate HashSeparates(rules: Rules, contentAt: Timeline) {
    forall k, s, t, s', t' :: rules.hash(contentAt(k, s, t)) == rules.hash(contentAt(k, s', t')) ==>
      rules.extract(contentAt(k, s, t)) == rules.extract(contentAt(k, s', t'))
  }

  datatype Scan = Scan(src: Sources, now: int)

  /** The files known after a history of scans, starting from nothing. */
  function After(rules: Rules, scans: seq<Scan>): map<string, Record> {
    if scans == [] then map[]
    else Scanned(rules, After(rules, scans[..|scans| - 1]), scans[|scans| - 1].src, scans[|scans| - 1].now)
  }

  ghost predicate Proper(src: Sources, contentAt: Timeline) {
    DistinctKeys(src.metas) && Stable(src, contentAt)
  }

  lemma ScanStaysGenuine(rules: Rules, files: map<string, Record>, src: Sources, now: int, contentAt: Timeline)
    requires Proper(src, contentAt) && HashSeparates(rules, contentAt) && Genuine(rules, files, contentAt)
    ensures Genuine(rules, Scanned(rules, files, src, now), contentAt)
  {
    var after := Scanned(rules, files, src, now);
    forall k | k in after
      ensures GenuineRecord(rules, after[k], contentAt(k, after[k].size, after[k].mtime))
    {
      ScanIsPerKey(rules, files, src, now, k);
      MetaOfIsThere(src.metas, k);
    }
  }

  lemma {:induction false} HistoryIsGenuine(rules: Rules, scans: seq<Scan>, contentAt: Timeline)
    requires HashSeparates(rules, contentAt) && forall i :: 0 <= i < |scans| ==> Proper(scans[i].src, contentAt)
    ensures Genuine(rules, After(rules, scans), contentAt)
  {
    if scans == [] {
    } else {
      var n := |scans| - 1;
      HistoryIsGenuine(rules, scans[..n], contentAt);
      ScanStaysGenuine(rules, After(rules, scans[..n]), scans[n].src, scans[n].now, contentAt);
    }
  }

  /** A known file has the size and time it had, but cannot be read. */
  predicate KeptBlindly(rules: Rules, files: map<string, Record>, src: Sources, key: string) {
    var m := MetaOf(src.metas, key);
    m.Some? && m.value.size <= rules.maxFileBytes && key in files && Unchanged(files[key], m.value)
        && key !in src.contents
  }

  /** One path: the incremental scan and the one from scratch agree, unless the file is kept without reading it. */
  lemma SameViewPerKey(rules: Rules, files: map<string, Record>, src: Sources, now: int, contentAt: Timeline,
      key: string)
    requires Proper(src, contentAt) && HashSeparates(rules, contentAt) && Genuine(rules, files, contentAt)
    ensures var inc, scratch := ViewsOf(Scanned(rules, files, src, now)), ViewsOf(Scanned(rules, map[], src, now));
            && (!KeptBlindly(rules, files, src, key) ==> Lookup(inc, key) == Lookup(scratch, key))
            && (KeptBlindly(rules, files, src, key) ==> key in inc && key !in scratch)
  {
    ScanIsPerKey(rules, files, src, now, key);
    ScanIsPerKey(rules, map[], src, now, key);
    MetaOfIsThere(src.metas, key);
  }

  /**
   After any history of scans, one more scan gives every file the root, size, time, hash, title,
   links and terms a scan from scratch gives it, and knows the same files, exactly if no known
   file with unchanged size and time has become unreadable.
   */
  lemma {:induction false} IncrementalEqualsScratch(rules: Rules, scans: seq<Scan>, src: Sources, now: int,
      contentAt: Timeline)
    requires HashSeparates(rules, contentAt) && Proper(src, contentAt)
    requires forall i :: 0 <= i < |scans| ==> Proper(scans[i].src, contentAt)
    ensures ViewsOf(Scanned(rules, After(rules, scans), src, now)) == ViewsOf(Scanned(rules, map[], src, now))
            <==> forall key :: !KeptBlindly(rules, After(rules, scans), src, key)
  {
    var files := After(rules, scans);
    HistoryIsGenuine(rules, scans, contentAt);
    var inc, scratch := ViewsOf(Scanned(rules, files, src, now)), ViewsOf(Scanned(rules, map[], src, now));
    forall key
      ensures !KeptBlindly(rules, files, src, key) ==> Lookup(inc, key) == Lookup(scratch, key)
      ensures KeptBlindly(rules, files, src, key) ==> key in inc && key !in scratch
    {
      SameViewPerKey(rules, files, src, now, contentAt, key);
    }
    if forall key :: !KeptBlindly(rules, files, src, key) {
      SameMaps(inc, scratch);
    }
  }

  lemma SameMaps<T>(a: map<string, T>, b: map<string, T>)
    requires forall k :: Lookup(a, k) == Lookup(b, k)
    ensures a == b
  {
    forall k: string
      ensures k in a <==> k in b
      ensures k in a ==> a[k] == b[k]
    {
      assert Lookup(a, k) == Lookup(b, k);
    }
  }

  /** Whatever the order of earlier scans, the last one decides what is known about the disk. */
  lemma {:induction false} LastScanDecides(rules: Rules, scans: seq<Scan>, others: seq<Scan>, src: Sources, now: int,
      contentAt: Timeline)
    requires HashSeparates(rules, contentAt) && Proper(src, contentAt)
    requires forall i :: 0 <= i < |scans| ==> Proper(scans[i].src, contentAt)
    requires forall i :: 0 <= i < |others| ==> Proper(others[i].src, contentAt)
    requires forall i :: 0 <= i < |src.metas| && src.metas[i].key.Some? ==> src.metas[i].key.value in src.contents
    ensures ViewsOf(Scanned(rules, After(rules, scans), src, now))
            == ViewsOf(Scanned(rules, After(rules, others), src, now))
  {
    forall key
      ensures !KeptBlindly(rules, After(rules, scans), src, key) && !KeptBlindly(rules, After(rules, others), src, key)
    {
      MetaOfIsThere(src.metas, key);
    }
    IncrementalEqualsScratch(rules, scans, src, now, contentAt);
    IncrementalEqualsScratch(rules, others, src, now, contentAt);
  }
}
