/**
 The sliding time window over recent events, with per-template counts and two bounds: age and
 number of entries.
 */
module Window {
  import opened Common

  datatype Entry = Entry(time: nat, id: nat)

  datatype Limits = Limits(windowUs: nat, maxEntries: nat)

  /** The clamped limits the window works with. */
  function Configure(windowSeconds: nat, maxEntries: nat): (l: Limits)
    ensures l.maxEntries > 0
  {
    Limits(SatMul(windowSeconds, 1_000_000), Max(maxEntries, 1))
  }

  /** `expired` counts the entries dropped for their age; the code does not keep it. */
  datatype State = State(entries: seq<Entry>, newest: nat, expired: nat, droppedByCapacity: nat, droppedLate: nat)

  const EMPTY: State := State([], 0, 0, 0, 0)

  function Cutoff(newest: nat, windowUs: nat): nat {
    SatSub(newest, windowUs)
  }

  /** Number of entries at the front that are older than the cutoff. */
  function StaleFront(entries: seq<Entry>, cutoff: nat): (n: nat)
    ensures n <= |entries|
    ensures forall i :: 0 <= i < n ==> entries[i].time < cutoff
    ensures n < |entries| ==> entries[n].time >= cutoff
  {
    if entries == [] || entries[0].time >= cutoff then 0 else 1 + StaleFront(entries[1..], cutoff)
  }

  function Trimmed(s: State, cutoff: nat, maxEntries: nat): State {
    var n := StaleFront(s.entries, cutoff);
    var kept := s.entries[n..];
    var over := SatSub(|kept|, maxEntries);
    s.(entries := kept[over..], expired := s.expired + n, droppedByCapacity := s.droppedByCapacity + over)
  }

  function Step(s: State, l: Limits, e: Entry): State {
    var newest := Max(s.newest, e.time);
    var cutoff := Cutoff(newest, l.windowUs);
    if e.time < cutoff then s.(newest := newest, droppedLate := s.droppedLate + 1)
    else Trimmed(s.(newest := newest, entries := s.entries + [e]), cutoff, l.maxEntries)
  }

  function Occurrences(entries: seq<Entry>, id: nat): nat {
    if entries == [] then 0
    else Occurrences(entries[..|entries| - 1], id) + if entries[|entries| - 1].id == id then 1 else 0
  }

  lemma {:induction false} OccurrencesTail(entries: seq<Entry>, id: nat)
    requires entries != []
    ensures Occurrences(entries, id) == Occurrences(entries[1..], id) + if entries[0].id == id then 1 else 0
  {
    var n := |entries| - 1;
    if n > 0 {
      OccurrencesTail(entries[..n], id);
      assert entries[..n][1..] == entries[1..][..n - 1];
    } else {
      assert entries[1..] == [] && entries[..0] == [];
    }
  }

  /** Every template in the window with its number of entries, and no zero. */
  ghost predicate CountsExact(counts: map<nat, nat>, entries: seq<Entry>) {
    && (forall id :: id in counts ==> counts[id] == Occurrences(entries, id) && counts[id] > 0)
    && (forall id :: Occurrences(entries, id) > 0 ==> id in counts)
  }

  class SlidingWindow {
    var entries: seq<Entry>
    var counts: map<nat, nat>
    const limits: Limits
    var newest: nat
    var droppedByCapacity: nat
    var droppedLate: nat
    ghost var expired: nat

    ghost predicate Valid()
      reads this
    {
      limits.maxEntries > 0 && CountsExact(counts, entries)
    }

    ghost function View(): State
      reads this
    {
      State(entries, newest, expired, droppedByCapacity, droppedLate)
    }

    constructor (windowSeconds: nat, maxEntries: nat)
      ensures Valid() && View() == EMPTY && limits == Configure(windowSeconds, maxEntries)
    {
      entries, counts, newest, droppedByCapacity, droppedLate := [], map[], 0, 0, 0;
      limits := Configure(windowSeconds, maxEntries);
      expired := 0;
    }

    method PopFront()
      requires Valid() && entries != []
      modifies `entries, `counts
      ensures Valid() && entries == old(entries)[1..]
    {
      var removed := entries[0].id;
      forall id
        ensures Occurrences(entries, id) == Occurrences(entries[1..], id) + if removed == id then 1 else 0
      {
        OccurrencesTail(entries, id);
      }
      entries := entries[1..];
      counts := counts[removed := counts[removed] - 1];
      if counts[removed] == 0 {
        counts := counts - {removed};
      }
    }

    method EvictExpired(cutoff: nat)
      requires Valid()
      modifies `entries, `counts, `expired
      ensures Valid()
      ensures entries == old(entries)[StaleFront(old(entries), cutoff)..]
      ensures expired == old(expired) + StaleFront(old(entries), cutoff)
    {
      ghost var n := StaleFront(entries, cutoff);
      ghost var k := 0;
      while entries != [] && entries[0].time < cutoff
        invariant Valid() && k <= n && entries == old(entries)[k..] && expired == old(expired) + k
        decreases |entries|
      {
        PopFront();
        k := k + 1;
        expired := expired + 1;
      }
    }

    method EvictOverCapacity()
      requires Valid()
      modifies `entries, `counts, `droppedByCapacity
      ensures Valid()
      ensures var over := SatSub(|old(entries)|, limits.maxEntries);
              entries == old(entries)[over..] && droppedByCapacity == old(droppedByCapacity) + over
    {
      ghost var k := 0;
      while |entries| > limits.maxEntries
        invariant Valid() && k <= |old(entries)| && entries == old(entries)[k..]
        invariant k == 0 || |entries| >= limits.maxEntries
        invariant droppedByCapacity == old(droppedByCapacity) + k
        decreases |entries|
      {
        PopFront();
        k := k + 1;
        droppedByCapacity := droppedByCapacity + 1;
      }
    }

    method Append(time: nat, id: nat)
      requires Valid()
      modifies `entries, `counts
      ensures Valid() && entries == old(entries) + [Entry(time, id)]
    {
      ghost var before := entries;
      entries := entries + [Entry(time, id)];
      assert entries[..|before|] == before;
      counts := counts[id := (if id in counts then counts[id] else 0) + 1];
      assert forall i :: Occurrences(entries, i) == Occurrences(before, i) + if i == id then 1 else 0;
    }

    method Push(time: nat, id: nat)
      requires Valid()
      modifies this
      ensures Valid() && View() == Step(old(View()), limits, Entry(time, id))
    {
      hide StaleFront, Occurrences, CountsExact;
      newest := Max(newest, time);
      var cutoff := Cutoff(newest, limits.windowUs);
      if time < cutoff {
        droppedLate := droppedLate + 1;
        return;
      }
      Append(time, id);
      EvictExpired(cutoff);
      EvictOverCapacity();
    }
  }

  // ------------------------------------------------ runs

  function Run(l: Limits, evs: seq<Entry>): State {
    if evs == [] then EMPTY else Step(Run(l, evs[..|evs| - 1]), l, evs[|evs| - 1])
  }

  /** The events that were not too old on arrival. */
  ghost function Accepted(l: Limits, evs: seq<Entry>): seq<Entry> {
    if evs == [] then []
    else
      var e := evs[|evs| - 1];
      Accepted(l, evs[..|evs| - 1])
      + if e.time < Cutoff(Run(l, evs).newest, l.windowUs) then [] else [e]
  }

  /** `s` is the end of `t`. */
  ghost predicate IsSuffix<T>(s: seq<T>, t: seq<T>) {
    |s| <= |t| && s == t[|t| - |s|..]
  }

  lemma SuffixOfSuffix<T>(s: seq<T>, t: seq<T>, k: nat, x: seq<T>)
    requires IsSuffix(s, t) && k <= |s + x|
    ensures IsSuffix((s + x)[k..], t + x)
  {
  }

  /** What one push does to the counters and to the clock. */
  lemma StepCounts(s: State, l: Limits, e: Entry)
    ensures
      var t, accepted := Step(s, l, e), e.time >= Cutoff(Max(s.newest, e.time), l.windowUs);
      && t.newest == Max(s.newest, e.time)
      && t.droppedLate == s.droppedLate + (if accepted then 0 else 1)
      && (!accepted ==> t.entries == s.entries)
      && |t.entries| + t.expired + t.droppedByCapacity
         == |s.entries| + s.expired + s.droppedByCapacity + (if accepted then 1 else 0)
      && (accepted ==> |t.entries| <= l.maxEntries)
  {
    hide StaleFront;
  }

  lemma NothingHeld()
    ensures IsSuffix<Entry>([], [])
  {
  }

  /**
   In any order of arrival: held entries are the last accepted ones, within the bound, and every push is
   accounted for.
   */
  lemma {:induction false} EveryPushIsAccountedFor(l: Limits, evs: seq<Entry>)
    requires l.maxEntries > 0
    ensures var s := Run(l, evs);
            && IsSuffix(s.entries, Accepted(l, evs)) && |s.entries| <= l.maxEntries
            && |evs| == |s.entries| + s.expired + s.droppedByCapacity + s.droppedLate
            && |Accepted(l, evs)| + s.droppedLate == |evs|
  {
    hide StaleFront, Step, IsSuffix;
    if evs == [] {
      NothingHeld();
    } else {
      var n, e := |evs| - 1, evs[|evs| - 1];
      EveryPushIsAccountedFor(l, evs[..n]);
      var s := Run(l, evs[..n]);
      StepCounts(s, l, e);
      if e.time >= Cutoff(Max(s.newest, e.time), l.windowUs) {
        StepKeeps(s, l, e);
        var all := s.entries + [e];
        var cut := Max(StaleFront(all, Cutoff(Max(s.newest, e.time), l.windowUs)), SatSub(|all|, l.maxEntries));
        SuffixOfSuffix(s.entries, Accepted(l, evs[..n]), cut, [e]);
      } else {
        assert Accepted(l, evs) == Accepted(l, evs[..n]);
      }
    }
  }

  ghost predicate NonDecreasing(evs: seq<Entry>) {
    forall i, j :: 0 <= i < j < |evs| ==> evs[i].time <= evs[j].time
  }

  /** Exactly the events from `k` on are within the window of the newest. */
  ghost predicate Splits(evs: seq<Entry>, cutoff: nat, k: nat) {
    k <= |evs| && forall i :: 0 <= i < |evs| ==> (i >= k <==> evs[i].time >= cutoff)
  }

  lemma {:induction false} StaleFrontIs(evs: seq<Entry>, cutoff: nat, k: nat)
    requires Splits(evs, cutoff, k)
    ensures StaleFront(evs, cutoff) == k
  {
    var n := StaleFront(evs, cutoff);
    if n < |evs| {
      assert evs[n].time >= cutoff;
    }
    if k < |evs| {
      assert evs[k].time >= cutoff;
    }
  }

  lemma CutTwice<T>(s: seq<T>, a: nat, bound: nat)
    requires a <= |s|
    ensures SatSub(|s|, bound) <= |s| && SatSub(|s| - a, bound) <= |s| - a
    ensures s[a..][SatSub(|s| - a, bound)..] == s[Max(a, SatSub(|s|, bound))..]
  {
  }

  /** What an accepted push keeps: everything behind the expired front, and no more than the bound. */
  lemma StepKeeps(s: State, l: Limits, e: Entry)
    requires e.time >= Cutoff(Max(s.newest, e.time), l.windowUs)
    ensures
      var all, cutoff := s.entries + [e], Cutoff(Max(s.newest, e.time), l.windowUs);
      Step(s, l, e).entries == all[Max(StaleFront(all, cutoff), SatSub(|all|, l.maxEntries))..]
  {
    hide StaleFront;
    var all, cutoff := s.entries + [e], Cutoff(Max(s.newest, e.time), l.windowUs);
    CutTwice(all, StaleFront(all, cutoff), l.maxEntries);
  }

  lemma {:induction false} OrderedSplits(evs: seq<Entry>, cutoff: nat)
    requires NonDecreasing(evs)
    ensures Splits(evs, cutoff, StaleFront(evs, cutoff))
  {
  }

  /** Cutting the expired and the excess from a tail of the events. */
  lemma {:induction false} TailKeeps(evs: seq<Entry>, cutoff: nat, start: nat, k: nat, maxEntries: nat)
    requires Splits(evs, cutoff, k) && start <= |evs|
    ensures
      var all := evs[start..];
      all[Max(StaleFront(all, cutoff), SatSub(|all|, maxEntries))..]
          == evs[Max(Max(k, start), SatSub(|evs|, maxEntries))..]
  {
    var all, stale := evs[start..], SatSub(k, start);
    assert Splits(all, cutoff, stale);
    StaleFrontIs(all, cutoff, stale);
    var cut := Max(stale, SatSub(|all|, maxEntries));
    assert all[cut..] == evs[start + cut..];
  }

  /** The cutoff of the newest event of an ordered run. */
  ghost function RunCutoff(l: Limits, evs: seq<Entry>): nat {
    if evs == [] then 0 else Cutoff(evs[|evs| - 1].time, l.windowUs)
  }

  /**
   For events in order of time, the window is exactly a filter: the events no older than the
   window, or the last `maxEntries` of them.
   */
  lemma {:induction false} OrderedWindowIsAFilter(l: Limits, evs: seq<Entry>) returns (k: nat)
    requires l.maxEntries > 0 && NonDecreasing(evs)
    ensures Splits(evs, RunCutoff(l, evs), k)
    ensures Run(l, evs).entries == evs[Max(k, SatSub(|evs|, l.maxEntries))..]
    ensures Run(l, evs).droppedLate == 0
    ensures Run(l, evs).newest == if evs == [] then 0 else evs[|evs| - 1].time
  {
    hide Step, StaleFront;
    k := 0;
    if evs == [] {
    } else {
      var n, e := |evs| - 1, evs[|evs| - 1];
      var s := Run(l, evs[..n]);
      var before := OrderedWindowIsAFilter(l, evs[..n]);
      if n > 0 {
        assert evs[n - 1].time <= e.time;
      }
      k := OrderedStep(l, evs, s, before);
      RunUnfold(l, evs);
    }
  }

  lemma {:induction false} RunUnfold(l: Limits, evs: seq<Entry>)
    requires evs != []
    ensures Run(l, evs) == Step(Run(l, evs[..|evs| - 1]), l, evs[|evs| - 1])
  {
  }

  lemma TailPlusNext<T>(s: seq<T>, start: nat)
    requires start < |s|
    ensures s[..|s| - 1][start..] + [s[|s| - 1]] == s[start..]
  {
  }

  lemma OrderedStep(l: Limits, evs: seq<Entry>, s: State, before: nat) returns (k: nat)
    requires l.maxEntries > 0 && NonDecreasing(evs) && evs != []
    requires s.newest <= evs[|evs| - 1].time
    requires before < |evs| && forall i :: 0 <= i < before ==> evs[i].time < Cutoff(s.newest, l.windowUs)
    requires s.entries == evs[..|evs| - 1][Max(before, SatSub(|evs| - 1, l.maxEntries))..]
    ensures Splits(evs, RunCutoff(l, evs), k)
    ensures Step(s, l, evs[|evs| - 1]).entries == evs[Max(k, SatSub(|evs|, l.maxEntries))..]
    ensures Step(s, l, evs[|evs| - 1]).newest == evs[|evs| - 1].time
    ensures Step(s, l, evs[|evs| - 1]).droppedLate == s.droppedLate
  {
    hide StaleFront, Step;
    var e, cutoff := evs[|evs| - 1], RunCutoff(l, evs);
    k := StaleFront(evs, cutoff);
    OrderedSplits(evs, cutoff);
    FrontOnlyGrows(evs, cutoff, before, k);
    StepKeeps(s, l, e);
    StepCounts(s, l, e);
    OrderedTail(evs, s.entries, cutoff, before, k, l.maxEntries);
  }

  lemma FrontOnlyGrows(evs: seq<Entry>, cutoff: nat, before: nat, k: nat)
    requires Splits(evs, cutoff, k) && before <= |evs| && forall i :: 0 <= i < before ==> evs[i].time < cutoff
    ensures before <= k
  {
    assert k < |evs| ==> evs[k].time >= cutoff;
  }

  /** What is kept of the kept tail and the new event is again a tail of all events. */
  lemma {:induction false} OrderedTail(evs: seq<Entry>, held: seq<Entry>, cutoff: nat, before: nat, k: nat,
      maxEntries: nat)
    requires evs != [] && Splits(evs, cutoff, k) && before <= k && before < |evs| && maxEntries > 0
    requires held == evs[..|evs| - 1][Max(before, SatSub(|evs| - 1, maxEntries))..]
    ensures var all := held + [evs[|evs| - 1]];
            all[Max(StaleFront(all, cutoff), SatSub(|all|, maxEntries))..] == evs[Max(k, SatSub(|evs|, maxEntries))..]
  {
    hide StaleFront, Splits;
    var start := Max(before, SatSub(|evs| - 1, maxEntries));
    TailPlusNext(evs, start);
    TailKeeps(evs, cutoff, start, k, maxEntries);
  }

  /**
   For events in order of time, in terms of their age: the window holds the events that are no older
   than the configured time at the newest one, or the last `maxEntries` of them.
   */
  lemma {:induction false} OrderedWindowByAge(l: Limits, evs: seq<Entry>) returns (k: nat)
    requires l.maxEntries > 0 && NonDecreasing(evs) && evs != []
    ensures k <= |evs| && Run(l, evs).entries == evs[k..]
    ensures forall i :: 0 <= i < |evs| ==>
              (i >= k <==> evs[|evs| - 1].time - evs[i].time <= l.windowUs && i >= |evs| - l.maxEntries)
  {
    hide Run, StaleFront;
    var split := OrderedWindowIsAFilter(l, evs);
    k := Max(split, SatSub(|evs|, l.maxEntries));
  }

  ghost predicate OnlyFresh(entries: seq<Entry>, cutoff: nat) {
    forall i :: 0 <= i < |entries| ==> entries[i].time >= cutoff
  }

  /** An expired entry stands behind one that is not, within the last `maxEntries`. */
  ghost predicate Shielded(all: seq<Entry>, cutoff: nat, maxEntries: nat) {
    exists i, j :: 0 <= i < j < |all| && all[i].time >= cutoff && all[j].time < cutoff && j >= |all| - maxEntries
  }

  lemma {:induction false} TailFreshUnlessShielded(all: seq<Entry>, cutoff: nat, maxEntries: nat, stale: nat,
      kept: seq<Entry>)
    requires stale == StaleFront(all, cutoff)
    requires kept == all[Max(stale, SatSub(|all|, maxEntries))..]
    ensures OnlyFresh(kept, cutoff) <==> !Shielded(all, cutoff, maxEntries)
  {
    hide StaleFront;
    var start := Max(stale, SatSub(|all|, maxEntries));
    assert forall j :: start <= j < |all| ==> kept[j - start] == all[j];
    if !OnlyFresh(kept, cutoff) {
      var m :| 0 <= m < |kept| && kept[m].time < cutoff;
      assert all[stale].time >= cutoff && all[start + m].time < cutoff;
    }
  }

  /**
   Out of order, an entry can outlive its time. After a push all entries are within the window if
   and only if none was shielded by a fresher one in front of it.
   */
  lemma FreshUnlessShielded(s: State, l: Limits, e: Entry)
    requires e.time >= Cutoff(Max(s.newest, e.time), l.windowUs)
    ensures
      var cutoff := Cutoff(Max(s.newest, e.time), l.windowUs);
      OnlyFresh(Step(s, l, e).entries, cutoff) <==> !Shielded(s.entries + [e], cutoff, l.maxEntries)
  {
    StepKeeps(s, l, e);
    var all, cutoff := s.entries + [e], Cutoff(Max(s.newest, e.time), l.windowUs);
    TailFreshUnlessShielded(all, cutoff, l.maxEntries, StaleFront(all, cutoff), Step(s, l, e).entries);
  }

  /** What was accepted and is no longer held, though the bound had room for it, is past its time. */
  ghost predicate ExpiredAreOld(s: State, acc: seq<Entry>, l: Limits) {
    forall k :: 0 <= k < |acc| - |s.entries| && k >= |acc| - l.maxEntries ==> acc[k].time < Cutoff(s.newest, l.windowUs)
  }

  lemma {:induction false} ExpiredEntriesAreOld(l: Limits, evs: seq<Entry>)
    requires l.maxEntries > 0
    ensures ExpiredAreOld(Run(l, evs), Accepted(l, evs), l)
  {
    hide StaleFront, Step, IsSuffix, ExpiredAreOld;
    if evs == [] {
      assert ExpiredAreOld(EMPTY, [], l) by { NothingExpired(l); }
    } else {
      var n, e := |evs| - 1, evs[|evs| - 1];
      var s, acc := Run(l, evs[..n]), Accepted(l, evs[..n]);
      ExpiredEntriesAreOld(l, evs[..n]);
      EveryPushIsAccountedFor(l, evs[..n]);
      StepCounts(s, l, e);
      if e.time >= Cutoff(Max(s.newest, e.time), l.windowUs) {
        AcceptedStepExpires(s, l, e, acc);
      } else {
        assert Accepted(l, evs) == acc;
        RefusedStepExpires(s, l, e, acc);
      }
    }
  }

  lemma NothingExpired(l: Limits)
    ensures ExpiredAreOld(EMPTY, [], l)
  {
  }

  lemma RefusedStepExpires(s: State, l: Limits, e: Entry, acc: seq<Entry>)
    requires ExpiredAreOld(s, acc, l) && e.time < Cutoff(Max(s.newest, e.time), l.windowUs)
    ensures ExpiredAreOld(Step(s, l, e), acc, l)
  {
  }

  lemma AcceptedStepExpires(s: State, l: Limits, e: Entry, acc: seq<Entry>)
    requires e.time >= Cutoff(Max(s.newest, e.time), l.windowUs)
    requires IsSuffix(s.entries, acc) && ExpiredAreOld(s, acc, l)
    ensures ExpiredAreOld(Step(s, l, e), acc + [e], l)
  {
    hide StaleFront, Step;
    var all, cutoff, start := s.entries + [e], Cutoff(Max(s.newest, e.time), l.windowUs), |acc| - |s.entries|;
    var t, stale := Step(s, l, e), StaleFront(all, cutoff);
    StepKeeps(s, l, e);
    StepCounts(s, l, e);
    forall k | 0 <= k < |acc + [e]| - |t.entries| && k >= |acc + [e]| - l.maxEntries
      ensures (acc + [e])[k].time < Cutoff(t.newest, l.windowUs)
    {
      if k >= start {
        assert k - start < stale && (acc + [e])[k] == all[k - start];
      } else {
        assert (acc + [e])[k] == acc[k];
      }
    }
  }

  /** Among the last accepted events the bound can hold, an expired one came after one that is not expired. */
  ghost predicate ShieldedInRun(acc: seq<Entry>, cutoff: nat, maxEntries: nat) {
    exists i, j :: 0 <= i < j < |acc| && i >= |acc| - 1 - maxEntries && j >= |acc| - maxEntries
                   && acc[i].time >= cutoff && acc[j].time < cutoff
  }

  lemma ShieldedByHeldEntry(acc: seq<Entry>, start: nat, cutoff: nat, maxEntries: nat)
    requires start <= |acc| <= start + 1 + maxEntries
    requires forall k :: 0 <= k < start && k >= |acc| - 1 - maxEntries ==> acc[k].time < cutoff
    ensures Shielded(acc[start..], cutoff, maxEntries) <==> ShieldedInRun(acc, cutoff, maxEntries)
  {
    var all := acc[start..];
    if Shielded(all, cutoff, maxEntries) {
      var i, j :| 0 <= i < j < |all| && all[i].time >= cutoff && all[j].time < cutoff && j >= |all| - maxEntries;
      assert acc[start + i].time >= cutoff && acc[start + j].time < cutoff;
    }
    if ShieldedInRun(acc, cutoff, maxEntries) {
      var i, j :| 0 <= i < j < |acc| && i >= |acc| - 1 - maxEntries && j >= |acc| - maxEntries
                  && acc[i].time >= cutoff && acc[j].time < cutoff;
      assert all[i - start].time >= cutoff && all[j - start].time < cutoff;
    }
  }

  /**
   After every run, all entries are within the window exactly if no event accepted last came after one
   still within it.
   */
  lemma {:induction false} RunIsFreshUnlessShielded(l: Limits, evs: seq<Entry>)
    requires l.maxEntries > 0
    ensures var cutoff := Cutoff(Run(l, evs).newest, l.windowUs);
            OnlyFresh(Run(l, evs).entries, cutoff) <==> !ShieldedInRun(Accepted(l, evs), cutoff, l.maxEntries)
  {
    hide Step, StaleFront, Shielded;
    if evs == [] {
    } else {
      var n, e := |evs| - 1, evs[|evs| - 1];
      var s := Run(l, evs[..n]);
      RunUnfold(l, evs);
      StepCounts(s, l, e);
      if e.time >= Cutoff(Max(s.newest, e.time), l.windowUs) {
        AcceptedIsFreshUnlessShielded(l, evs);
      } else {
        RunIsFreshUnlessShielded(l, evs[..n]);
        assert Accepted(l, evs) == Accepted(l, evs[..n]);
      }
    }
  }

  lemma {:induction false} AcceptedIsFreshUnlessShielded(l: Limits, evs: seq<Entry>)
    requires l.maxEntries > 0 && evs != []
    requires evs[|evs| - 1].time >= Cutoff(Run(l, evs).newest, l.windowUs)
    ensures var cutoff := Cutoff(Run(l, evs).newest, l.windowUs);
            OnlyFresh(Run(l, evs).entries, cutoff) <==> !ShieldedInRun(Accepted(l, evs), cutoff, l.maxEntries)
  {
    hide Step, StaleFront, OnlyFresh, Shielded, ShieldedInRun;
    var n, e := |evs| - 1, evs[|evs| - 1];
    var s, before, acc := Run(l, evs[..n]), Accepted(l, evs[..n]), Accepted(l, evs);
    RunUnfold(l, evs);
    StepCounts(s, l, e);
    EveryPushIsAccountedFor(l, evs[..n]);
    ExpiredEntriesAreOld(l, evs[..n]);
    FreshUnlessShielded(s, l, e);
    var start := |before| - |s.entries|;
    assert acc == before + [e] && acc[start..] == s.entries + [e];
    ShieldedByHeldEntry(acc, start, Cutoff(Run(l, evs).newest, l.windowUs), l.maxEntries);
  }

  /** A family of such runs: an entry that arrives late behind its head stays beyond its time. */
  lemma LateEntryOutlivesTheWindow(l: Limits, head: Entry, late: Entry, next: Entry)
    requires l.maxEntries >= 3 && late.time < head.time <= next.time
    requires Cutoff(head.time, l.windowUs) <= late.time < Cutoff(next.time, l.windowUs) <= head.time
    ensures var s := Step(Step(Step(EMPTY, l, head), l, late), l, next);
            s.entries == [head, late, next] && late.time < Cutoff(s.newest, l.windowUs)
  {
    assert [head][0..] == [head];
    var s := Step(EMPTY, l, head);
    assert s == State([head], head.time, 0, 0, 0);
    NothingToTrim(s, l, late);
    NothingToTrim(Step(s, l, late), l, next);
  }

  lemma NothingToTrim(s: State, l: Limits, e: Entry)
    requires e.time >= Cutoff(Max(s.newest, e.time), l.windowUs) && |s.entries| < l.maxEntries
    requires s.entries != [] && s.entries[0].time >= Cutoff(Max(s.newest, e.time), l.windowUs)
    ensures Step(s, l, e) == s.(newest := Max(s.newest, e.time), entries := s.entries + [e])
  {
    var all := s.entries + [e];
    assert all[0] == s.entries[0];
    assert all[0..][0..] == all;
  }

  /**
   What an accepted push removes from the front: first the entries that are past their time, up to
   the first one that is not, then fresh ones only while there are more than the bound allows.
   */
  lemma {:induction false} RemovalsHaveReasons(s: State, l: Limits, e: Entry)
    requires e.time >= Cutoff(Max(s.newest, e.time), l.windowUs)
    ensures
      var t, all, cutoff := Step(s, l, e), s.entries + [e], Cutoff(Max(s.newest, e.time), l.windowUs);
      var old', over := t.expired - s.expired, t.droppedByCapacity - s.droppedByCapacity;
      && 0 <= old' && 0 <= over && old' + over <= |all| && t.entries == all[old' + over..]
      && (forall i :: 0 <= i < old' ==> all[i].time < cutoff)
      && (old' < |all| ==> all[old'].time >= cutoff)
      && (over > 0 ==> |t.entries| == l.maxEntries)
      && |t.entries| <= l.maxEntries && t.droppedLate == s.droppedLate
  {
    hide StaleFront, Step;
    var all, cutoff := s.entries + [e], Cutoff(Max(s.newest, e.time), l.windowUs);
    var n := StaleFront(all, cutoff);
    AcceptedStep(s, l, e, n);
  }

  lemma AcceptedStep(s: State, l: Limits, e: Entry, n: nat)
    requires e.time >= Cutoff(Max(s.newest, e.time), l.windowUs)
    requires n == StaleFront(s.entries + [e], Cutoff(Max(s.newest, e.time), l.windowUs))
    ensures
      var all := s.entries + [e];
      var over := SatSub(|all| - n, l.maxEntries);
      && over <= |all| - n
      && Step(s, l, e) == State(all[n + over..], Max(s.newest, e.time),
                                s.expired + n, s.droppedByCapacity + over, s.droppedLate)
  {
    hide StaleFront;
    DropTwice(s.entries + [e], n, SatSub(|s.entries + [e]| - n, l.maxEntries));
  }

  lemma DropTwice<T>(s: seq<T>, a: nat, b: nat)
    requires a + b <= |s|
    ensures s[a..][b..] == s[a + b..]
  {
  }
}
