/**
 The edges of the rate limit: when the announced waiting time is enough, and runs in which an
 eviction or a clock that jumps back breaks the limit.
 */
module RateLimitEdges {
  import opened Common
  import opened RateLimit

  // ------------------------------------------------ the announced waiting time

  lemma {:induction false} RetainedWhole(ts: Log, now: nat, windowUs: nat)
    requires NonDecreasing(ts) && (ts != [] ==> SatSub(now, ts[0]) < windowUs)
    ensures Retained(ts, now, windowUs) == ts
  {
    if ts == [] {
    } else {
      var n := |ts| - 1;
      RetainedWhole(ts[..n], now, windowUs);
      assert ts == ts[..n] + [ts[n]];
    }
  }

  lemma {:induction false} RetainedLacksFirst(ts: Log, now: nat, windowUs: nat)
    requires ts != [] && SatSub(now, ts[0]) >= windowUs
    ensures |Retained(ts, now, windowUs)| < |ts|
  {
    var n := |ts| - 1;
    if n == 0 {
      assert ts[..0] == [];
    } else {
      RetainedLacksFirst(ts[..n], now, windowUs);
    }
  }

  lemma {:induction false} RetainedSubset(ts: Log, now: nat, windowUs: nat)
    ensures forall i :: 0 <= i < |Retained(ts, now, windowUs)| ==>
              Retained(ts, now, windowUs)[i] in ts && SatSub(now, Retained(ts, now, windowUs)[i]) < windowUs
  {
    if ts == [] {
    } else {
      var n := |ts| - 1;
      RetainedSubset(ts[..n], now, windowUs);
      assert ts == ts[..n] + [ts[n]];
    }
  }

  /** A span of microseconds that its number of whole seconds, as a 32-bit number, gives back. */
  predicate WholeSeconds(us: nat) {
    us % 1_000_000 == 0 && us / 1_000_000 < U32_RANGE
  }

  lemma SecondsOf(us: nat)
    ensures var wait := us / 1_000_000 % U32_RANGE;
            && (wait * 1_000_000 >= us <==> WholeSeconds(us))
            && ((wait + 1) * 1_000_000 >= us <==> us < U32_RANGE * 1_000_000)
  {
    var s, r := us / 1_000_000, us % 1_000_000;
    assert us == s * 1_000_000 + r;
    if s >= U32_RANGE {
      assert s % U32_RANGE < U32_RANGE <= s;
    } else {
      assert s % U32_RANGE == s;
    }
  }

  /** A full key admits again exactly when its oldest attempt has left the window. */
  lemma FullKeyAdmitsAgain(kept: Log, l: Limit, limits: map<string, Log>, key: string, later: nat)
    requires l.maxActions < U32_RANGE && NonDecreasing(kept) && |kept| == l.maxActions
    requires AttemptsOf(limits, key) == kept
    ensures Admits(limits, l, Call(key, later, None)) <==> l.maxActions > 0 && SatSub(later, kept[0]) >= l.windowUs
  {
    if kept == [] {
    } else if SatSub(later, kept[0]) >= l.windowUs {
      RetainedLacksFirst(kept, later, l.windowUs);
      SmallCountsDoNotWrap(|Retained(kept, later, l.windowUs)|);
    } else {
      RetainedWhole(kept, later, l.windowUs);
      SmallCountsDoNotWrap(|kept|);
    }
  }

  /** What a refusal leaves behind: a full key whose attempts are all inside the window. */
  lemma RefusalLeavesFullKey(limits: map<string, Log>, l: Limit, c: Call) returns (kept: Log)
    requires l.maxActions < U32_RANGE && AllBounded(limits, l.maxActions) && OrderedAttempts(limits, l)
    requires AllBefore(limits, c.now) && !Admits(limits, l, c)
    ensures kept == AttemptsOf(Checked(limits, l, c), c.key)
    ensures NonDecreasing(kept) && |kept| == l.maxActions
    ensures forall i :: 0 <= i < |kept| ==> kept[i] <= c.now && SatSub(c.now, kept[i]) < l.windowUs
  {
    var attempts := AttemptsOf(Without(limits, c.victim), c.key);
    kept := Retained(attempts, c.now, l.windowUs);
    RetainedOrdered(attempts, c.now, l.windowUs);
    RetainedSize(attempts, c.now, l.windowUs);
    RetainedSubset(attempts, c.now, l.windowUs);
    SmallCountsDoNotWrap(|kept|);
  }

  /**
   A refused client that comes back after the announced seconds is let in exactly if any action is
   allowed at all and no fraction of a second was cut off; after one second more, exactly if any is
   allowed and the seconds fit 32 bits.
   */
  lemma AnnouncedWaitSufficesExactlyWhen(limits: map<string, Log>, l: Limit, c: Call)
    requires l.maxActions < U32_RANGE && AllBounded(limits, l.maxActions) && OrderedAttempts(limits, l)
    requires AllBefore(limits, c.now) && !Admits(limits, l, c)
    ensures
      var after := Checked(limits, l, c);
      var kept := AttemptsOf(after, c.key);
      var wait := RetryAfter(kept, c.now, l.windowUs);
      && (Admits(after, l, Call(c.key, c.now + wait * 1_000_000, None))
          <==> l.maxActions > 0 && WholeSeconds(SatSub(l.windowUs, SatSub(c.now, kept[0]))))
      && (Admits(after, l, Call(c.key, c.now + (wait + 1) * 1_000_000, None))
          <==> l.maxActions > 0 && SatSub(l.windowUs, SatSub(c.now, kept[0])) < U32_RANGE * 1_000_000)
  {
    hide Checked, Admits;
    var kept := RefusalLeavesFullKey(limits, l, c);
    var after, wait := Checked(limits, l, c), RetryAfter(kept, c.now, l.windowUs);
    FullKeyAdmitsAgain(kept, l, after, c.key, c.now + wait * 1_000_000);
    FullKeyAdmitsAgain(kept, l, after, c.key, c.now + (wait + 1) * 1_000_000);
    if kept == [] {
    } else {
      var rest := l.windowUs - (c.now - kept[0]);
      SecondsOf(rest);
      assert wait == rest / 1_000_000 % U32_RANGE;
    }
  }

  lemma {:induction false} RetainedDropsExactlyWhen(ts: Log, now: nat, windowUs: nat)
    ensures |Retained(ts, now, windowUs)| <= |ts|
    ensures |Retained(ts, now, windowUs)| < |ts| <==> exists i :: 0 <= i < |ts| && SatSub(now, ts[i]) >= windowUs
  {
    if ts == [] {
    } else {
      var n := |ts| - 1;
      RetainedDropsExactlyWhen(ts[..n], now, windowUs);
      assert forall i :: 0 <= i < n ==> ts[..n][i] == ts[i];
    }
  }

  /**
   After a refusal, whatever the order of the times: the key is full, and only a remembered attempt that
   got old makes room.
   */
  lemma {:induction false} RoomAfterRefusal(limits: map<string, Log>, l: Limit, c: Call, later: nat)
    requires l.maxActions < U32_RANGE && AllBounded(limits, l.maxActions) && !Admits(limits, l, c)
    ensures
      var after := Checked(limits, l, c);
      var kept := AttemptsOf(after, c.key);
      && |kept| == l.maxActions
      && (Admits(after, l, Call(c.key, later, None))
          <==> exists i :: 0 <= i < |kept| && SatSub(later, kept[i]) >= l.windowUs)
  {
    hide Retained;
    var attempts := AttemptsOf(Without(limits, c.victim), c.key);
    var kept := Retained(attempts, c.now, l.windowUs);
    RetainedSize(attempts, c.now, l.windowUs);
    SmallCountsDoNotWrap(|kept|);
    RetainedDropsExactlyWhen(kept, later, l.windowUs);
    SmallCountsDoNotWrap(|Retained(kept, later, l.windowUs)|);
  }

  /**
   In every run, a refused client that comes back at any later time is let in exactly if some attempt
   that made it wait has left the window by then; if the clock ran forward, waiting the announced
   seconds is enough exactly if any action is allowed at all and no fraction of a second was cut off.
   */
  lemma {:induction false} RefusedClientIsLetInExactlyWhen(l: Limit, calls: seq<Call>, later: nat)
    requires calls != [] && l.maxActions < U32_RANGE
    requires !Admits(Run(l, calls[..|calls| - 1]), l, calls[|calls| - 1])
    ensures
      var c, after := calls[|calls| - 1], Run(l, calls);
      var kept := AttemptsOf(after, c.key);
      && (Admits(after, l, Call(c.key, later, None))
          <==> exists i :: 0 <= i < |kept| && SatSub(later, kept[i]) >= l.windowUs)
      && (ClockForward(calls) && later == c.now + RetryAfter(kept, c.now, l.windowUs) * 1_000_000 ==>
            (Admits(after, l, Call(c.key, later, None))
             <==> l.maxActions > 0 && WholeSeconds(SatSub(l.windowUs, SatSub(c.now, kept[0])))))
  {
    hide Admits, Checked;
    var n, c := |calls| - 1, calls[|calls| - 1];
    AttemptsAreBounded(l, calls[..n]);
    RoomAfterRefusal(Run(l, calls[..n]), l, c, later);
    if ClockForward(calls) {
      AttemptsStayOrdered(l, calls[..n]);
      if n > 0 {
        assert calls[n - 1].now <= c.now;
      }
      AnnouncedWaitSufficesExactlyWhen(Run(l, calls[..n]), l, c);
    }
  }

  /**
   Concrete case: a window of one and a half seconds, one action; refused at once, told to wait one
   second, refused again.
   */
  lemma AnnouncedWaitFallsShort()
    ensures
      var l := Limit(1_500_000, 1, 10);
      var calls := [Call("k", 0, None), Call("k", 0, None)];
      var limits := Run(l, calls);
      && !Admits(Run(l, calls[..1]), l, calls[1])
      && RetryAfter(AttemptsOf(limits, "k"), 0, l.windowUs) == 1
      && !Admits(limits, l, Call("k", 1_000_000, None))
  {
    var l, c := Limit(1_500_000, 1, 10), Call("k", 0, None);
    assert [c, c][..1] == [c] && [c][..0] == [];
    var zero: Log := [0];
    assert zero[..0] == [];
    assert Retained(zero, 0, l.windowUs) == [0] && Retained(zero, 1_000_000, l.windowUs) == [0];
    assert Run(l, []) == map[];
    assert Run(l, [c]) == map["k" := [0]];
    assert Run(l, [c, c]) == map["k" := [0]];
  }

  // ------------------------------------------------ why evictions must be harmless

  /** Everything tracked was admitted. */
  lemma {:induction false} TrackedIsAdmitted(l: Limit, calls: seq<Call>, key: string, t: nat)
    requires t in AttemptsOf(Run(l, calls), key)
    ensures t in Admissions(l, calls, key)
  {
    var before, c := calls[..|calls| - 1], calls[|calls| - 1];
    TrackedBefore(Run(l, before), l, c, key, t);
    if t in AttemptsOf(Run(l, before), key) {
      TrackedIsAdmitted(l, before, key, t);
    }
  }

  lemma TrackedBefore(limits: map<string, Log>, l: Limit, c: Call, key: string, t: nat)
    requires t in AttemptsOf(Checked(limits, l, c), key)
    ensures t in AttemptsOf(limits, key) || (key == c.key && Admits(limits, l, c) && t == c.now)
  {
    var attempts := AttemptsOf(Without(limits, c.victim), c.key);
    RetainedSubset(attempts, c.now, l.windowUs);
    var kept := Retained(attempts, c.now, l.windowUs);
    if key == c.key && t in kept {
      assert exists i :: 0 <= i < |kept| && kept[i] == t;
    }
  }

  lemma {:induction false} SmallestLatest(limits: map<string, Log>, keys: set<string>) returns (v: string)
    requires keys != {} && keys <= limits.Keys
    ensures v in keys && forall k :: k in keys ==> Latest(limits[v]) <= Latest(limits[k])
    decreases keys
  {
    var x :| x in keys;
    var rest := keys - {x};
    assert forall k :: k in keys ==> k == x || k in rest;
    if rest == {} {
      v := x;
    } else {
      var w := SmallestLatest(limits, rest);
      v := if Latest(limits[w]) < Latest(limits[x]) then w else x;
    }
  }

  lemma SomeVictim(limits: map<string, Log>, l: Limit, key: string) returns (victim: Option<string>)
    ensures ValidVictim(limits, l, key, victim)
  {
    if key in limits || |limits| < l.maxKeys || limits == map[] {
      victim := None;
    } else {
      assert limits.Keys != {};
      var v := SmallestLatest(limits, limits.Keys);
      victim := Some(v);
    }
  }

  function Copies(n: nat, now: nat): Log {
    seq(n, _ => now)
  }

  /** One more call of a key that has been admitted `n` times at this very moment, and otherwise forgotten. */
  lemma NextOfBurst(limits: map<string, Log>, l: Limit, v: string, now: nat, n: nat, victim: Option<string>)
    requires n < l.maxActions < U32_RANGE && l.windowUs > 0 && victim != Some(v)
    requires AttemptsOf(limits, v) == Copies(n, now)
    ensures Admits(limits, l, Call(v, now, victim))
    ensures AttemptsOf(Checked(limits, l, Call(v, now, victim)), v) == Copies(n + 1, now)
  {
    hide Retained;
    RetainedWhole(Copies(n, now), now, l.windowUs);
    assert AttemptsOf(Without(limits, victim), v) == Copies(n, now);
    SmallCountsDoNotWrap(n);
    assert Copies(n, now) + [now] == Copies(n + 1, now);
  }

  /** A forgotten key can be called until its limit is reached once more, all at one moment. */
  lemma {:induction false} Burst(l: Limit, calls: seq<Call>, v: string, now: nat, n: nat) returns (more: seq<Call>)
    requires calls != [] && calls[|calls| - 1].now == now && ValidRun(l, calls) && ClockForward(calls)
    requires n <= l.maxActions < U32_RANGE && l.windowUs > 0 && v !in Run(l, calls)
    ensures ValidRun(l, calls + more) && ClockForward(calls + more) && (calls + more)[|calls + more| - 1].now == now
    ensures AttemptsOf(Run(l, calls + more), v) == Copies(n, now)
    ensures Admissions(l, calls + more, v) == Admissions(l, calls, v) + Copies(n, now)
  {
    hide Run, Admissions, ValidRun, ClockForward, Checked, Admits, ValidVictim;
    if n == 0 {
      more := [];
      assert calls + more == calls;
      assert Admissions(l, calls, v) + Copies(0, now) == Admissions(l, calls, v);
    } else {
      var fewer := Burst(l, calls, v, now, n - 1);
      var run := calls + fewer;
      var victim := SomeVictim(Run(l, run), l, v);
      var c := Call(v, now, victim);
      OneMoreCall(l, run, c);
      ClockStaysForward(run, c);
      NextOfBurst(Run(l, run), l, v, now, n - 1, victim);
      more := fewer + [c];
      assert calls + more == run + [c];
      assert Copies(n - 1, now) + [now] == Copies(n, now);
      assert Admissions(l, calls, v) + Copies(n, now) == Admissions(l, run, v) + [now];
    }
  }

  lemma {:induction false} OneMoreCall(l: Limit, run: seq<Call>, c: Call)
    requires ValidRun(l, run) && ValidVictim(Run(l, run), l, c.key, c.victim)
    ensures ValidRun(l, run + [c]) && c.victim != Some(c.key)
    ensures Run(l, run + [c]) == Checked(Run(l, run), l, c)
    ensures Admits(Run(l, run), l, c) ==> Admissions(l, run + [c], c.key) == Admissions(l, run, c.key) + [c.now]
  {
    assert (run + [c])[..|run|] == run;
  }

  lemma ClockStaysForward(run: seq<Call>, c: Call)
    requires ClockForward(run) && run != [] && run[|run| - 1].now <= c.now
    ensures ClockForward(run + [c])
  {
  }

  /**
   Giving up a key with a recent admission always breaks the limit in some continuation: calls of
   that key at the same moment are admitted until the window holds more than `maxActions` of them.
   */
  lemma {:induction false} ForgettingBreaksTheLimit(l: Limit, calls: seq<Call>) returns (more: seq<Call>, first: nat)
    requires calls != [] && ValidRun(l, calls) && ClockForward(calls) && l.maxActions < U32_RANGE
    requires !ForgetsOnlyOld(Run(l, calls[..|calls| - 1]), l, calls[|calls| - 1])
    ensures ValidRun(l, calls + more) && ClockForward(calls + more)
    ensures var log := Admissions(l, calls + more, calls[|calls| - 1].victim.value);
            && first < |log| && SatSub(log[|log| - 1], log[first]) < l.windowUs
            && |log| - first > l.maxActions
  {
    hide Run, Admissions, ValidRun, ClockForward, Retained;
    var before, c := calls[..|calls| - 1], calls[|calls| - 1];
    first := RecentAdmission(l, before, c);
    VictimIsGone(l, calls);
    more := Burst(l, calls, c.victim.value, c.now, l.maxActions);
    var log, after := Admissions(l, before, c.victim.value), Admissions(l, calls + more, c.victim.value);
    AdmissionsBefore(l, calls + more, c.victim.value);
    assert after == log + Copies(l.maxActions, c.now);
    assert after[first] == log[first] && after[|after| - 1] <= c.now;
  }

  lemma {:induction false} RecentAdmission(l: Limit, before: seq<Call>, c: Call) returns (first: nat)
    requires !ForgetsOnlyOld(Run(l, before), l, c)
    ensures var log := Admissions(l, before, c.victim.value);
            first < |log| && SatSub(c.now, log[first]) < l.windowUs
  {
    var v := c.victim.value;
    var attempts := AttemptsOf(Run(l, before), v);
    RetainedSubset(attempts, c.now, l.windowUs);
    var t := Retained(attempts, c.now, l.windowUs)[0];
    TrackedIsAdmitted(l, before, v, t);
    hide Run, Admissions, Retained;
    var log := Admissions(l, before, v);
    first :| 0 <= first < |log| && log[first] == t;
  }

  lemma {:induction false} VictimIsGone(l: Limit, calls: seq<Call>)
    requires calls != [] && ValidRun(l, calls) && calls[|calls| - 1].victim.Some?
    ensures var v := calls[|calls| - 1].victim.value;
            v !in Run(l, calls) && Admissions(l, calls, v) == Admissions(l, calls[..|calls| - 1], v)
  {
    VictimIsNotTheKey(l, calls);
  }

  // ------------------------------------------------ why the clock must run forward

  /** Concrete case: two actions in ten units of time; after a jump back three admissions lie within eight units. */
  lemma BackwardClockBreaksTheLimit()
    ensures
      var l := Limit(10, 2, 10);
      var calls := [Call("k", 0, None), Call("k", 5, None), Call("k", 100, None), Call("k", 8, None)];
      ValidRun(l, calls) && Admissions(l, calls, "k") == [0, 5, 100, 8]
  {
    hide Checked, Admits, Retained, Run, Admissions, ValidRun;
    var l := Limit(10, 2, 10);
    FirstCall("k", l, 0);
    var none: Log, one: Log := [], [0];
    assert one + [5] == [0, 5] && none + [100] == [100];
    var run := [Call("k", 0, None)];
    SingleKey(l, run, "k", [0], 5);
    run := run + [Call("k", 5, None)];
    SingleKey(l, run, "k", [0, 5], 100);
    run := run + [Call("k", 100, None)];
    SingleKey(l, run, "k", [100], 8);
    run := run + [Call("k", 8, None)];
    assert run == [Call("k", 0, None), Call("k", 5, None), Call("k", 100, None), Call("k", 8, None)];
  }

  lemma {:induction false} FirstCall(key: string, l: Limit, now: nat)
    requires 0 < l.maxActions
    ensures var run := [Call(key, now, None)];
            ValidRun(l, run) && Run(l, run) == map[key := [now]] && Admissions(l, run, key) == [now]
  {
    var c := Call(key, now, None);
    assert [c][..0] == [];
    assert Run(l, []) == map[] && Admissions(l, [], key) == [] && ValidRun(l, []);
    assert Retained([], now, l.windowUs) == [];
    var empty: Log := [];
    assert empty + [now] == [now];
    assert Admits(map[], l, c);
  }

  /** A further call of the only key, whose attempts are all inside the window, or all outside. */
  lemma {:induction false} SingleKey(l: Limit, run: seq<Call>, key: string, ts: Log, now: nat)
    requires ValidRun(l, run) && Run(l, run) == map[key := ts]
    requires |ts| <= l.maxActions < U32_RANGE && l.maxActions > 0 && NonDecreasing(ts) && ts != []
    requires SatSub(now, ts[0]) < l.windowUs ==> |ts| < l.maxActions
    requires SatSub(now, ts[0]) >= l.windowUs ==> forall i :: 0 <= i < |ts| ==> SatSub(now, ts[i]) >= l.windowUs
    ensures var more := run + [Call(key, now, None)];
            && ValidRun(l, more) && Admissions(l, more, key) == Admissions(l, run, key) + [now]
            && Run(l, more) == map[key := (if SatSub(now, ts[0]) < l.windowUs then ts else []) + [now]]
  {
    hide Retained, Run, Admissions, ValidRun;
    if SatSub(now, ts[0]) < l.windowUs {
      RetainedWhole(ts, now, l.windowUs);
    } else {
      RetainedIsEmptyWhenAllOld(ts, now, l.windowUs);
    }
    SmallCountsDoNotWrap(|Retained(ts, now, l.windowUs)|);
    OneMoreCall(l, run, Call(key, now, None));
  }
}
