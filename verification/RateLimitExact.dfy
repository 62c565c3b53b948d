/**
 Exactly when the rate limit can be exceeded: for any clock, any evictions and any run.

 A key can get more admissions into one window than allowed if and only if an admission that is
 still recent has been forgotten, because the key was given up or because a call of it came from so far
 in the future that the admission looked old.
 */
module RateLimitExact {
  import opened Common
  import opened RateLimit
  import opened RateLimitEdges

  predicate AdmittedAt(l: Limit, calls: seq<Call>, i: nat, key: string)
    requires i < |calls|
  {
    calls[i].key == key && Admits(Run(l, calls[..i]), l, calls[i])
  }

  predicate Recent(t: nat, now: nat, windowUs: nat) {
    SatSub(now, t) < windowUs
  }

  /** Call `j` makes the limiter forget an admission of the key at time `t`. */
  predicate Forgets(c: Call, key: string, t: nat, windowUs: nat) {
    c.victim == Some(key) || (c.key == key && !Recent(t, c.now, windowUs))
  }

  /** Some admission of the key that is recent at `now` was forgotten by a later call. */
  ghost predicate RecentForgotten(l: Limit, calls: seq<Call>, key: string, now: nat) {
    exists i, j :: 0 <= i < j < |calls| && AdmittedAt(l, calls, i, key)
                   && Recent(calls[i].now, now, l.windowUs) && Forgets(calls[j], key, calls[i].now, l.windowUs)
  }

  // ------------------------------------------------ admissions as calls

  lemma AdmittedInPrefix(l: Limit, calls: seq<Call>, n: nat, i: nat, key: string)
    requires i < n <= |calls|
    ensures AdmittedAt(l, calls[..n], i, key) <==> AdmittedAt(l, calls, i, key)
  {
    assert calls[..n][..i] == calls[..i];
  }

  lemma {:induction false} AdmissionIsACall(l: Limit, calls: seq<Call>, key: string, t: nat)
    ensures t in Admissions(l, calls, key)
            <==> exists i :: 0 <= i < |calls| && AdmittedAt(l, calls, i, key) && calls[i].now == t
  {
    hide Admits, Run;
    if calls == [] {
    } else {
      var n := |calls| - 1;
      AdmissionIsACall(l, calls[..n], key, t);
      if i :| 0 <= i < |calls[..n]| && AdmittedAt(l, calls[..n], i, key) && calls[..n][i].now == t {
        AdmittedInPrefix(l, calls, n, i, key);
        assert AdmittedAt(l, calls, i, key) && calls[i].now == t;
      }
      if i :| 0 <= i < |calls| && AdmittedAt(l, calls, i, key) && calls[i].now == t {
        if i < n {
          AdmittedInPrefix(l, calls, n, i, key);
          assert calls[..n][i].now == t;
        }
      }
      assert AdmittedAt(l, calls, n, key) <==> calls[n].key == key && Admits(Run(l, calls[..n]), l, calls[n]);
    }
  }

  /** Some recent admission would be forgotten by a next call. */
  ghost predicate WouldForget(log: Log, c: Call, key: string, now: nat, windowUs: nat) {
    exists t :: t in log && Recent(t, now, windowUs) && Forgets(c, key, t, windowUs)
  }

  lemma {:induction false} ForgottenSoFarOrNow(l: Limit, calls: seq<Call>, key: string, now: nat)
    requires calls != []
    ensures var n := |calls| - 1;
            RecentForgotten(l, calls, key, now) <==>
              || RecentForgotten(l, calls[..n], key, now)
              || WouldForget(Admissions(l, calls[..n], key), calls[n], key, now, l.windowUs)
  {
    hide AdmittedAt, Admissions, Forgets;
    var n := |calls| - 1;
    var before := calls[..n];
    if RecentForgotten(l, before, key, now) {
      var i, j :| 0 <= i < j < n && AdmittedAt(l, before, i, key)
                  && Recent(before[i].now, now, l.windowUs) && Forgets(before[j], key, before[i].now, l.windowUs);
      AdmittedInPrefix(l, calls, n, i, key);
      assert Forgets(calls[j], key, calls[i].now, l.windowUs);
    }
    if WouldForget(Admissions(l, before, key), calls[n], key, now, l.windowUs) {
      var t :| t in Admissions(l, before, key) && Recent(t, now, l.windowUs) && Forgets(calls[n], key, t, l.windowUs);
      AdmissionIsACall(l, before, key, t);
      var i :| 0 <= i < n && AdmittedAt(l, before, i, key) && before[i].now == t;
      AdmittedInPrefix(l, calls, n, i, key);
      assert Forgets(calls[n], key, calls[i].now, l.windowUs);
    }
    if RecentForgotten(l, calls, key, now) {
      var i, j :| 0 <= i < j < |calls| && AdmittedAt(l, calls, i, key)
                  && Recent(calls[i].now, now, l.windowUs) && Forgets(calls[j], key, calls[i].now, l.windowUs);
      AdmittedInPrefix(l, calls, n, i, key);
      if j < n {
        assert Forgets(before[j], key, before[i].now, l.windowUs);
      } else {
        assert before[i].now == calls[i].now;
        AdmissionIsACall(l, before, key, calls[i].now);
      }
    }
  }

  // ------------------------------------------------ what is tracked against what was admitted

  lemma {:induction false} RetainedHas(ts: Log, now: nat, windowUs: nat, t: nat)
    ensures t in Retained(ts, now, windowUs) <==> t in ts && Recent(t, now, windowUs)
  {
    if ts == [] {
    } else {
      var n := |ts| - 1;
      RetainedHas(ts[..n], now, windowUs, t);
      assert ts == ts[..n] + [ts[n]];
    }
  }

  /** Something recent at `later` looks old at `now`. */
  ghost predicate Loses(ts: Log, now: nat, later: nat, windowUs: nat) {
    exists t :: t in ts && Recent(t, later, windowUs) && !Recent(t, now, windowUs)
  }

  /** Filtering at another time first loses something exactly if something recent looks old at that time. */
  lemma {:induction false} FilteringLoses(ts: Log, now: nat, later: nat, windowUs: nat)
    ensures var once, twice := Retained(ts, later, windowUs), Retained(Retained(ts, now, windowUs), later, windowUs);
            && |twice| <= |once|
            && (Loses(ts, now, later, windowUs) <==> |twice| < |once|)
            && (!Loses(ts, now, later, windowUs) ==> twice == once)
  {
    hide Retained, Loses, Recent;
    if ts == [] {
      NothingIsLost(now, later, windowUs);
    } else {
      var n := |ts| - 1;
      FilteringLoses(ts[..n], now, later, windowUs);
      LosesNext(ts, now, later, windowUs);
      RetainedNext(ts[..n], ts[n], later, windowUs);
      RetainedNext(ts[..n], ts[n], now, windowUs);
      var kept := Retained(ts[..n], now, windowUs);
      RetainedNext(kept, ts[n], later, windowUs);
      assert ts == ts[..n] + [ts[n]] && kept + [] == kept;
      assert Retained(ts[..n], later, windowUs) + [] == Retained(ts[..n], later, windowUs);
    }
  }

  lemma {:induction false} NothingIsLost(now: nat, later: nat, windowUs: nat)
    ensures Retained([], now, windowUs) == [] && Retained([], later, windowUs) == [] && !Loses([], now, later, windowUs)
  {
  }

  lemma LosesNext(ts: Log, now: nat, later: nat, windowUs: nat)
    requires ts != []
    ensures var n := |ts| - 1;
            Loses(ts, now, later, windowUs) <==>
              || Loses(ts[..n], now, later, windowUs)
              || (Recent(ts[n], later, windowUs) && !Recent(ts[n], now, windowUs))
  {
    var n := |ts| - 1;
    assert ts == ts[..n] + [ts[n]];
  }

  lemma {:induction false} RetainedNext(ts: Log, t: nat, now: nat, windowUs: nat)
    ensures Retained(ts + [t], now, windowUs)
            == Retained(ts, now, windowUs) + if Recent(t, now, windowUs) then [t] else []
  {
    assert (ts + [t])[..|ts|] == ts;
  }

  /** What is tracked misses something recent exactly if something recent was forgotten. */
  ghost predicate Accounted(tracked: Log, log: Log, forgotten: bool, now: nat, windowUs: nat) {
    var t, a := Retained(tracked, now, windowUs), Retained(log, now, windowUs);
    |t| <= |a| && (forgotten <==> |t| < |a|) && (!forgotten ==> t == a)
  }

  /** A call of the key itself. */
  lemma {:induction false} OwnCallAccounts(
      tracked: Log, log: Log, forgotten: bool, c: Call, key: string, now: nat, windowUs: nat, added: Log)
    requires Accounted(tracked, log, forgotten, now, windowUs) && c.key == key && c.victim != Some(key)
    ensures var kept := Retained(tracked, c.now, windowUs);
            Accounted(kept + added, log + added, forgotten || WouldForget(log, c, key, now, windowUs), now, windowUs)
  {
    var kept := Retained(tracked, c.now, windowUs);
    FilteringLoses(tracked, c.now, now, windowUs);
    RetainedAppend(kept, added, now, windowUs);
    RetainedAppend(log, added, now, windowUs);
    if !forgotten {
      forall t: nat
        ensures t in tracked && Recent(t, now, windowUs) <==> t in log && Recent(t, now, windowUs)
      {
        RetainedHas(tracked, now, windowUs, t);
        RetainedHas(log, now, windowUs, t);
      }
      assert Loses(tracked, c.now, now, windowUs) <==> WouldForget(log, c, key, now, windowUs);
    }
    hide Retained, Loses, WouldForget;
  }

  /** The key is given up. */
  lemma EvictionAccounts(tracked: Log, log: Log, forgotten: bool, c: Call, key: string, now: nat, windowUs: nat)
    requires Accounted(tracked, log, forgotten, now, windowUs) && c.victim == Some(key)
    ensures Accounted([], log, forgotten || WouldForget(log, c, key, now, windowUs), now, windowUs)
  {
    var recent := Retained(log, now, windowUs);
    assert Retained([], now, windowUs) == [];
    if recent != [] {
      RetainedHas(log, now, windowUs, recent[0]);
    } else {
      forall t: nat | t in log
        ensures !Recent(t, now, windowUs)
      {
        RetainedHas(log, now, windowUs, t);
      }
    }
  }

  lemma CheckedAttempts(limits: map<string, Log>, l: Limit, c: Call, key: string)
    requires c.victim != Some(c.key)
    ensures AttemptsOf(Checked(limits, l, c), key) ==
              if c.key == key then
                Retained(AttemptsOf(limits, key), c.now, l.windowUs) + if Admits(limits, l, c) then [c.now] else []
              else if c.victim == Some(key) then []
              else AttemptsOf(limits, key)
  {
    if c.key == key {
      assert AttemptsOf(Without(limits, c.victim), key) == AttemptsOf(limits, key);
    }
  }

  lemma {:induction false} MemoryIsAccounted(l: Limit, calls: seq<Call>, key: string, now: nat)
    requires ValidRun(l, calls)
    ensures var forgotten := RecentForgotten(l, calls, key, now);
            Accounted(AttemptsOf(Run(l, calls), key), Admissions(l, calls, key), forgotten, now, l.windowUs)
  {
    hide Checked, Admits, Retained, Accounted, RecentForgotten, WouldForget;
    if calls == [] {
      NothingAccounted(l, key, now);
    } else {
      var n := |calls| - 1;
      var before, c := calls[..n], calls[n];
      var limits, log := Run(l, before), Admissions(l, before, key);
      var forgotten := RecentForgotten(l, before, key, now);
      MemoryIsAccounted(l, before, key, now);
      VictimIsNotTheKey(l, calls);
      ForgottenSoFarOrNow(l, calls, key, now);
      CheckedAttempts(limits, l, c, key);
      var tracked := AttemptsOf(limits, key);
      if c.key == key {
        OwnCallAccounts(tracked, log, forgotten, c, key, now, l.windowUs, if Admits(limits, l, c) then [c.now] else []);
      } else if c.victim == Some(key) {
        EvictionAccounts(tracked, log, forgotten, c, key, now, l.windowUs);
        assert log + [] == log;
      } else {
        OthersForgetNothing(log, c, key, now, l.windowUs);
        assert log + [] == log;
      }
    }
  }

  lemma OthersForgetNothing(log: Log, c: Call, key: string, now: nat, windowUs: nat)
    requires c.key != key && c.victim != Some(key)
    ensures !WouldForget(log, c, key, now, windowUs)
  {
  }

  lemma {:induction false} NothingAccounted(l: Limit, key: string, now: nat)
    ensures var forgotten := RecentForgotten(l, [], key, now);
            Accounted(AttemptsOf(Run(l, []), key), Admissions(l, [], key), forgotten, now, l.windowUs)
  {
  }

  // ------------------------------------------------ the limit

  /** Number of admissions of the key that lie in the window at `now`. */
  ghost function InWindow(l: Limit, calls: seq<Call>, key: string, now: nat): nat {
    |Retained(Admissions(l, calls, key), now, l.windowUs)|
  }

  /** As long as nothing recent was forgotten, no window holds more admissions of a key than allowed. */
  lemma {:induction false} LimitHoldsUnlessForgotten(l: Limit, calls: seq<Call>, key: string, now: nat)
    requires ValidRun(l, calls) && l.maxActions < U32_RANGE && !RecentForgotten(l, calls, key, now)
    ensures InWindow(l, calls, key, now) <= l.maxActions
  {
    MemoryIsAccounted(l, calls, key, now);
    AttemptsAreBounded(l, calls);
    RetainedSize(AttemptsOf(Run(l, calls), key), now, l.windowUs);
  }

  /**
   As long as nothing recent of its key was forgotten, an attempt is decided by the full log, in
   whatever order times come.
   */
  lemma {:induction false} DecisionSeesTheLogUnlessForgotten(l: Limit, calls: seq<Call>)
    requires calls != [] && ValidRun(l, calls) && l.maxActions < U32_RANGE
    requires !RecentForgotten(l, calls[..|calls| - 1], calls[|calls| - 1].key, calls[|calls| - 1].now)
    ensures var before, c := calls[..|calls| - 1], calls[|calls| - 1];
            Admits(Run(l, before), l, c) <==> InWindow(l, before, c.key, c.now) < l.maxActions
  {
    hide Run, Admissions, RecentForgotten, Retained;
    var before, c := calls[..|calls| - 1], calls[|calls| - 1];
    var attempts := AttemptsOf(Run(l, before), c.key);
    VictimIsNotTheKey(l, calls);
    MemoryIsAccounted(l, before, c.key, c.now);
    AttemptsAreBounded(l, before);
    RetainedSize(attempts, c.now, l.windowUs);
    SmallCountsDoNotWrap(|Retained(attempts, c.now, l.windowUs)|);
    assert AttemptsOf(Without(Run(l, before), c.victim), c.key) == attempts;
  }

  /** With a forward clock and evictions that forget only old attempts, nothing recent is ever forgotten. */
  lemma {:induction false} OrderedRunsForgetNothing(l: Limit, calls: seq<Call>, key: string, now: nat)
    requires ValidRun(l, calls) && ClockForward(calls) && NeverForgets(l, calls)
    requires calls != [] ==> calls[|calls| - 1].now <= now
    ensures !RecentForgotten(l, calls, key, now)
  {
    hide Retained, RecentForgotten;
    var last := if calls == [] then 0 else calls[|calls| - 1].now;
    MemoryIsComplete(l, calls, key);
    MemoryIsAccounted(l, calls, key, now);
    RetainedTwice(AttemptsOf(Run(l, calls), key), last, now, l.windowUs);
    RetainedTwice(Admissions(l, calls, key), last, now, l.windowUs);
  }

  /** Further calls of the key at time `now` that bring more of its admissions into the window than allowed. */
  ghost predicate Overruns(l: Limit, calls: seq<Call>, key: string, now: nat, more: seq<Call>) {
    && ValidRun(l, calls + more)
    && (forall k :: 0 <= k < |more| ==> more[k].key == key && more[k].now == now)
    && InWindow(l, calls + more, key, now) > l.maxActions
  }

  /** Calls of the key at `now` itself forget nothing that is recent at `now`. */
  lemma {:induction false} OwnCallsForgetNothing(l: Limit, calls: seq<Call>, key: string, now: nat, more: seq<Call>)
    requires ValidRun(l, calls + more) && !RecentForgotten(l, calls, key, now)
    requires forall k :: 0 <= k < |more| ==> more[k].key == key && more[k].now == now
    ensures ValidRun(l, calls) && !RecentForgotten(l, calls + more, key, now)
    decreases |more|
  {
    hide Run, Admissions, RecentForgotten;
    if more == [] {
      assert calls + more == calls;
    } else {
      var n, run := |more| - 1, calls + more;
      assert run[..|run| - 1] == calls + more[..n];
      OwnCallsForgetNothing(l, calls, key, now, more[..n]);
      VictimIsNotTheKey(l, run);
      ForgottenSoFarOrNow(l, run, key, now);
    }
  }

  /** One more call of a key that has room; the log grows by it. */
  lemma {:induction false} FillOne(l: Limit, run: seq<Call>, key: string, now: nat) returns (c: Call)
    requires ValidRun(l, run) && l.maxActions < U32_RANGE && l.windowUs > 0
    requires |Retained(AttemptsOf(Run(l, run), key), now, l.windowUs)| < l.maxActions
    ensures c.key == key && c.now == now && ValidRun(l, run + [c])
    ensures |Retained(AttemptsOf(Run(l, run + [c]), key), now, l.windowUs)|
            == |Retained(AttemptsOf(Run(l, run), key), now, l.windowUs)| + 1
    ensures InWindow(l, run + [c], key, now) == InWindow(l, run, key, now) + 1
  {
    hide Checked, Run, Admissions, ValidRun, ValidVictim, Retained;
    var limits := Run(l, run);
    var tracked, log := AttemptsOf(limits, key), Admissions(l, run, key);
    var kept := Retained(tracked, now, l.windowUs);
    var victim := SomeVictim(limits, l, key);
    c := Call(key, now, victim);
    OneMoreCall(l, run, c);
    CheckedAttempts(limits, l, c, key);
    SmallCountsDoNotWrap(|kept|);
    assert AttemptsOf(Without(limits, victim), key) == tracked;
    RetainedTwice(tracked, now, now, l.windowUs);
    RetainedNext(kept, now, now, l.windowUs);
    RetainedNext(log, now, now, l.windowUs);
  }

  lemma {:induction false} FillUp(l: Limit, run: seq<Call>, key: string, now: nat, room: nat) returns (more: seq<Call>)
    requires ValidRun(l, run) && l.maxActions < U32_RANGE && l.windowUs > 0
    requires |Retained(AttemptsOf(Run(l, run), key), now, l.windowUs)| + room == l.maxActions
    ensures ValidRun(l, run + more) && forall k :: 0 <= k < |more| ==> more[k].key == key && more[k].now == now
    ensures InWindow(l, run + more, key, now) == InWindow(l, run, key, now) + room
    decreases room
  {
    hide Run, ValidRun, Retained, InWindow;
    if room == 0 {
      more := [];
      assert run + more == run;
    } else {
      var c := FillOne(l, run, key, now);
      var rest := FillUp(l, run + [c], key, now, room - 1);
      more := [c] + rest;
      assert run + more == run + [c] + rest;
    }
  }

  /**
   After any run, with any clock and any evictions, a key can get more admissions into the window at
   `now` than allowed if and only if an admission that is recent at `now` was forgotten.
   */
  lemma {:induction false} LimitBreaksExactlyWhen(l: Limit, calls: seq<Call>, key: string, now: nat)
    requires ValidRun(l, calls) && l.maxActions < U32_RANGE
    ensures RecentForgotten(l, calls, key, now) <==> exists more :: Overruns(l, calls, key, now, more)
  {
    if RecentForgotten(l, calls, key, now) {
      ForgottenCanOverrun(l, calls, key, now);
    } else {
      forall more: seq<Call> | ValidRun(l, calls + more)
          && (forall k :: 0 <= k < |more| ==> more[k].key == key && more[k].now == now)
        ensures !Overruns(l, calls, key, now, more)
      {
        OwnCallsForgetNothing(l, calls, key, now, more);
        LimitHoldsUnlessForgotten(l, calls + more, key, now);
      }
    }
  }

  lemma {:induction false} ForgottenCanOverrun(l: Limit, calls: seq<Call>, key: string, now: nat)
    requires ValidRun(l, calls) && l.maxActions < U32_RANGE && RecentForgotten(l, calls, key, now)
    ensures exists more :: Overruns(l, calls, key, now, more)
  {
    assert l.windowUs > 0;
    MemoryIsAccounted(l, calls, key, now);
    AttemptsAreBounded(l, calls);
    var tracked := AttemptsOf(Run(l, calls), key);
    RetainedSize(tracked, now, l.windowUs);
    var more := FillUp(l, calls, key, now, l.maxActions - |Retained(tracked, now, l.windowUs)|);
    assert Overruns(l, calls, key, now, more);
  }

  /** The concrete run with a clock that jumps back: the call at 100 forgets the admissions at 0 and 5. */
  lemma JumpBackForgets()
    ensures
      var l := Limit(10, 2, 10);
      var calls := [Call("k", 0, None), Call("k", 5, None), Call("k", 100, None), Call("k", 8, None)];
      ValidRun(l, calls) && RecentForgotten(l, calls, "k", 8) && InWindow(l, calls, "k", 8) > l.maxActions
  {
    var l := Limit(10, 2, 10);
    var calls := [Call("k", 0, None), Call("k", 5, None), Call("k", 100, None), Call("k", 8, None)];
    BackwardClockBreaksTheLimit();
    var log: Log := [0, 5, 100, 8];
    assert Admissions(l, calls, "k") == log;
    RetainedWhole4(log);
    if !RecentForgotten(l, calls, "k", 8) {
      LimitHoldsUnlessForgotten(l, calls, "k", 8);
    }
  }

  lemma {:induction false} RetainedWhole4(log: Log)
    requires log == [0, 5, 100, 8]
    ensures |Retained(log, 8, 10)| == 4
  {
    var none: Log, a: Log, b: Log, c: Log := [], [0], [0, 5], [0, 5, 100];
    assert none + [0] == a && a + [5] == b && b + [100] == c && c + [8] == log;
    RetainedNext(none, 0, 8, 10);
    RetainedNext(a, 5, 8, 10);
    RetainedNext(b, 100, 8, 10);
    RetainedNext(c, 8, 8, 10);
  }
}
