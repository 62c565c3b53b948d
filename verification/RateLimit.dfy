/**
 The sliding-log rate limit of the action subsystem, with a bounded number of tracked keys.
 */
module RateLimit {
  import opened Common

  const U32_RANGE: nat := 0x1_0000_0000

  datatype Limit = Limit(windowUs: nat, maxActions: nat, maxKeys: nat)

  type Log = seq<nat>

  /** Attempts still inside the window at `now`. */
  function Retained(attempts: Log, now: nat, windowUs: nat): Log {
    if attempts == [] then []
    else
      var t := attempts[|attempts| - 1];
      Retained(attempts[..|attempts| - 1], now, windowUs) + if SatSub(now, t) < windowUs then [t] else []
  }

  function AttemptsOf(limits: map<string, Log>, key: string): Log {
    if key in limits then limits[key] else []
  }

  /** Time of the latest attempt, as the choice of a key to give up sees it. */
  function Latest(attempts: Log): nat {
    if attempts == [] then 0 else attempts[|attempts| - 1]
  }

  /** A key is given up only for a new one at the bound, and it is one of those used longest ago. */
  ghost predicate ValidVictim(limits: map<string, Log>, l: Limit, key: string, victim: Option<string>) {
    if key in limits || |limits| < l.maxKeys || limits == map[] then victim == None
    else
      && victim.Some? && victim.value in limits
      && forall k :: k in limits ==> Latest(limits[victim.value]) <= Latest(limits[k])
  }

  function Without(limits: map<string, Log>, victim: Option<string>): map<string, Log> {
    if victim.Some? then limits - {victim.value} else limits
  }

  datatype Call = Call(key: string, now: nat, victim: Option<string>)

  predicate Admits(limits: map<string, Log>, l: Limit, c: Call) {
    |Retained(AttemptsOf(Without(limits, c.victim), c.key), c.now, l.windowUs)| % U32_RANGE < l.maxActions
  }

  function Checked(limits: map<string, Log>, l: Limit, c: Call): map<string, Log> {
    var room := Without(limits, c.victim);
    var kept := Retained(AttemptsOf(room, c.key), c.now, l.windowUs);
    room[c.key := if Admits(limits, l, c) then kept + [c.now] else kept]
  }

  /** Seconds until the oldest attempt leaves the window. */
  function RetryAfter(kept: Log, now: nat, windowUs: nat): nat {
    var elapsed := SatSub(now, if kept == [] then now else kept[0]);
    SatSub(windowUs, Min(elapsed, windowUs)) / 1_000_000 % U32_RANGE
  }

  class RateLimiter {
    var limits: map<string, Log>
    const limit: Limit

    constructor (windowMinutes: nat, maxActions: nat)
      ensures limits == map[]
      ensures limit == Limit(SatMul(SatMul(windowMinutes, 60), 1_000_000), maxActions, 10_000)
    {
      limits := map[];
      limit := Limit(SatMul(SatMul(windowMinutes, 60), 1_000_000), maxActions, 10_000);
    }

    method EnsureRoom(key: string) returns (victim: Option<string>)
      modifies this
      ensures ValidVictim(old(limits), limit, key, victim)
      ensures limits == Without(old(limits), victim)
    {
      if key in limits || |limits| < limit.maxKeys || limits == map[] {
        return None;
      }
      var todo := limits.Keys;
      assert todo != {};
      var oldest :| oldest in todo;
      todo := todo - {oldest};
      while todo != {}
        invariant oldest in limits && todo <= limits.Keys
        invariant forall k :: k in limits && k !in todo ==> Latest(limits[oldest]) <= Latest(limits[k])
        decreases todo
      {
        var k :| k in todo;
        todo := todo - {k};
        if Latest(limits[k]) < Latest(limits[oldest]) {
          oldest := k;
        }
      }
      limits := limits - {oldest};
      return Some(oldest);
    }

    /** `None` admits the attempt and records it; otherwise the seconds to wait. */
    method CheckRateLimit(key: string, now: nat) returns (retry: Option<nat>, victim: Option<string>)
      modifies this
      ensures ValidVictim(old(limits), limit, key, victim)
      ensures limits == Checked(old(limits), limit, Call(key, now, victim))
      ensures retry.None? <==> Admits(old(limits), limit, Call(key, now, victim))
      ensures retry.Some? ==> retry.value == RetryAfter(limits[key], now, limit.windowUs)
    {
      victim := EnsureRoom(key);
      var attempts := AttemptsOf(limits, key);
      var kept: Log := [];
      for i := 0 to |attempts|
        invariant kept == Retained(attempts[..i], now, limit.windowUs)
      {
        assert attempts[..i + 1][..i] == attempts[..i];
        if SatSub(now, attempts[i]) < limit.windowUs {
          kept := kept + [attempts[i]];
        }
      }
      assert attempts[..|attempts|] == attempts;
      if |kept| % U32_RANGE >= limit.maxActions {
        limits := limits[key := kept];
        var oldest := if kept == [] then now else kept[0];
        var elapsed := SatSub(now, oldest);
        return Some(SatSub(limit.windowUs, Min(elapsed, limit.windowUs)) / 1_000_000 % U32_RANGE), victim;
      }
      limits := limits[key := kept + [now]];
      return None, victim;
    }
  }

  // ------------------------------------------------ runs

  function Run(l: Limit, calls: seq<Call>): map<string, Log> {
    if calls == [] then map[] else Checked(Run(l, calls[..|calls| - 1]), l, calls[|calls| - 1])
  }

  /** All admissions of a key over the run, whatever was forgotten meanwhile. */
  ghost function Admissions(l: Limit, calls: seq<Call>, key: string): Log {
    if calls == [] then []
    else
      var before, c := calls[..|calls| - 1], calls[|calls| - 1];
      Admissions(l, before, key) + if c.key == key && Admits(Run(l, before), l, c) then [c.now] else []
  }

  ghost predicate NonDecreasing(ts: Log) {
    forall i, j :: 0 <= i < j < |ts| ==> ts[i] <= ts[j]
  }

  ghost predicate ClockForward(calls: seq<Call>) {
    forall i, j :: 0 <= i < j < |calls| ==> calls[i].now <= calls[j].now
  }

  ghost predicate ValidRun(l: Limit, calls: seq<Call>) {
    calls == [] ||
    (var before, c := calls[..|calls| - 1], calls[|calls| - 1];
     ValidRun(l, before) && ValidVictim(Run(l, before), l, c.key, c.victim))
  }

  /** The tracked attempts of a key show every admission that is still inside the window. */
  ghost predicate Remembers(limits: map<string, Log>, log: Log, key: string, now: nat, windowUs: nat) {
    Retained(AttemptsOf(limits, key), now, windowUs) == Retained(log, now, windowUs)
  }

  lemma {:induction false} RetainedAppend(a: Log, b: Log, now: nat, windowUs: nat)
    ensures Retained(a + b, now, windowUs) == Retained(a, now, windowUs) + Retained(b, now, windowUs)
  {
    if b == [] {
      assert a + b == a;
    } else {
      var n := |b| - 1;
      assert (a + b)[..|a + b| - 1] == a + b[..n];
      RetainedAppend(a, b[..n], now, windowUs);
    }
  }

  /** Filtering at an earlier time first changes nothing later. */
  lemma {:induction false} RetainedTwice(ts: Log, now: nat, later: nat, windowUs: nat)
    requires now <= later
    ensures Retained(Retained(ts, now, windowUs), later, windowUs) == Retained(ts, later, windowUs)
  {
    if ts == [] {
    } else {
      var n := |ts| - 1;
      RetainedTwice(ts[..n], now, later, windowUs);
      if SatSub(now, ts[n]) < windowUs {
        RetainedAppend(Retained(ts[..n], now, windowUs), [ts[n]], later, windowUs);
        assert [ts[n]][..0] == [];
      } else {
        assert Retained(ts, now, windowUs) == Retained(ts[..n], now, windowUs);
      }
    }
  }

  lemma {:induction false} RetainedIsEmptyWhenAllOld(ts: Log, now: nat, windowUs: nat)
    ensures Retained(ts, now, windowUs) == [] <==> forall i :: 0 <= i < |ts| ==> SatSub(now, ts[i]) >= windowUs
  {
    if ts == [] {
    } else {
      var n := |ts| - 1;
      RetainedIsEmptyWhenAllOld(ts[..n], now, windowUs);
      assert forall i :: 0 <= i < n ==> ts[..n][i] == ts[i];
    }
  }

  lemma {:induction false} RetainedCounts(ts: Log, now: nat, windowUs: nat, i: nat)
    requires NonDecreasing(ts) && i < |ts| && SatSub(now, ts[i]) < windowUs
    ensures |Retained(ts, now, windowUs)| >= |ts| - i
  {
    var n := |ts| - 1;
    if i < n {
      RetainedCounts(ts[..n], now, windowUs, i);
      assert ts[i] <= ts[n];
    }
  }

  /** Whether giving up a key, if any, forgets only attempts outside the window. */
  ghost predicate ForgetsOnlyOld(limits: map<string, Log>, l: Limit, c: Call) {
    c.victim.Some? ==> Retained(AttemptsOf(limits, c.victim.value), c.now, l.windowUs) == []
  }

  /** One call seen from one key: the memory stays complete, unless the key is given up while it has recent attempts. */
  lemma CheckRemembers(limits: map<string, Log>, l: Limit, c: Call, log: Log, key: string, now: nat)
    requires now <= c.now && Remembers(limits, log, key, now, l.windowUs)
    requires c.victim != Some(c.key)
    ensures
      var log' := log + if c.key == key && Admits(limits, l, c) then [c.now] else [];
      Remembers(Checked(limits, l, c), log', key, c.now, l.windowUs)
      <==> (c.victim == Some(key) ==> Retained(AttemptsOf(limits, key), c.now, l.windowUs) == [])
  {
    var w, attempts := l.windowUs, AttemptsOf(limits, key);
    RetainedTwice(attempts, now, c.now, w);
    RetainedTwice(log, now, c.now, w);
    assert Retained(attempts, c.now, w) == Retained(log, c.now, w);
    assert log + [] == log;
    if c.key == key {
      assert AttemptsOf(Without(limits, c.victim), key) == attempts;
      var kept := Retained(attempts, c.now, w);
      RetainedTwice(attempts, c.now, c.now, w);
      RetainedAppend(kept, [c.now], c.now, w);
      RetainedAppend(log, [c.now], c.now, w);
    }
  }

  /** Every key given up had no attempt inside the window. */
  ghost predicate NeverForgets(l: Limit, calls: seq<Call>) {
    calls == [] ||
    (var before, c := calls[..|calls| - 1], calls[|calls| - 1];
     NeverForgets(l, before) && ForgetsOnlyOld(Run(l, before), l, c))
  }

  lemma {:induction false} VictimIsNotTheKey(l: Limit, calls: seq<Call>)
    requires calls != [] && ValidRun(l, calls)
    ensures calls[|calls| - 1].victim != Some(calls[|calls| - 1].key)
  {
  }

  lemma {:induction false} MemoryIsComplete(l: Limit, calls: seq<Call>, key: string)
    requires ValidRun(l, calls) && ClockForward(calls) && NeverForgets(l, calls)
    ensures Remembers(Run(l, calls), Admissions(l, calls, key), key,
                      if calls == [] then 0 else calls[|calls| - 1].now, l.windowUs)
  {
    if calls == [] {
    } else {
      var n, c := |calls| - 1, calls[|calls| - 1];
      MemoryIsComplete(l, calls[..n], key);
      VictimIsNotTheKey(l, calls);
      var now := if n == 0 then 0 else calls[n - 1].now;
      CheckRemembers(Run(l, calls[..n]), l, c, Admissions(l, calls[..n], key), key, now);
    }
  }

  /** Admission `j` comes at least a window after admission `j - maxActions`. */
  ghost predicate Spaced(log: Log, l: Limit) {
    && NonDecreasing(log)
    && (l.maxActions == 0 ==> log == [])
    && forall j :: l.maxActions <= j < |log| ==> SatSub(log[j], log[j - l.maxActions]) >= l.windowUs
  }

  lemma {:induction false} AdmissionIsSpaced(log: Log, l: Limit, now: nat)
    requires Spaced(log, l) && (forall i :: 0 <= i < |log| ==> log[i] <= now)
    requires |Retained(log, now, l.windowUs)| < l.maxActions
    ensures Spaced(log + [now], l)
  {
    var j := |log|;
    if j >= l.maxActions {
      var i := j - l.maxActions;
      if SatSub(now, log[i]) < l.windowUs {
        RetainedCounts(log, now, l.windowUs, i);
      }
    }
  }

  lemma {:induction false} RetainedSize(ts: Log, now: nat, windowUs: nat)
    ensures |Retained(ts, now, windowUs)| <= |ts|
  {
    if ts == [] {
    } else {
      RetainedSize(ts[..|ts| - 1], now, windowUs);
    }
  }

  ghost predicate AllBounded(limits: map<string, Log>, maxActions: nat) {
    forall k :: k in limits ==> |limits[k]| <= maxActions
  }

  lemma CheckedIsBounded(limits: map<string, Log>, l: Limit, c: Call)
    requires l.maxActions < U32_RANGE && AllBounded(limits, l.maxActions)
    ensures AllBounded(Checked(limits, l, c), l.maxActions)
  {
    RetainedSize(AttemptsOf(Without(limits, c.victim), c.key), c.now, l.windowUs);
  }

  /** No key ever holds more attempts than are allowed, so the 32-bit count never wraps. */
  lemma {:induction false} AttemptsAreBounded(l: Limit, calls: seq<Call>)
    requires l.maxActions < U32_RANGE
    ensures AllBounded(Run(l, calls), l.maxActions)
  {
    if calls == [] {
    } else {
      AttemptsAreBounded(l, calls[..|calls| - 1]);
      CheckedIsBounded(Run(l, calls[..|calls| - 1]), l, calls[|calls| - 1]);
    }
  }

  lemma {:induction false} AdmissionsBefore(l: Limit, calls: seq<Call>, key: string)
    requires ClockForward(calls) && calls != []
    ensures forall i :: 0 <= i < |Admissions(l, calls, key)| ==> Admissions(l, calls, key)[i] <= calls[|calls| - 1].now
  {
    var n := |calls| - 1;
    if n > 0 {
      AdmissionsBefore(l, calls[..n], key);
      assert calls[n - 1].now <= calls[n].now;
    } else {
      assert calls[..0] == [];
    }
  }

  lemma SmallCountsDoNotWrap(n: nat)
    requires n < U32_RANGE
    ensures n % U32_RANGE == n
  {
  }

  lemma {:induction false} DecisionSeesTheLog(limits: map<string, Log>, l: Limit, c: Call, log: Log, now: nat)
    requires now <= c.now && Remembers(limits, log, c.key, now, l.windowUs)
    requires c.victim != Some(c.key) && |AttemptsOf(limits, c.key)| < U32_RANGE
    ensures Admits(limits, l, c) <==> |Retained(log, c.now, l.windowUs)| < l.maxActions
  {
    var w, attempts := l.windowUs, AttemptsOf(limits, c.key);
    var kept := Retained(attempts, c.now, w);
    assert kept == Retained(log, c.now, w) by {
      RetainedTwice(attempts, now, c.now, w);
      RetainedTwice(log, now, c.now, w);
    }
    assert |kept| < U32_RANGE by {
      RetainedSize(attempts, c.now, w);
    }
    SmallCountsDoNotWrap(|kept|);
    assert AttemptsOf(Without(limits, c.victim), c.key) == attempts;
  }

  /** An admission is decided by the full log, not only by what is remembered of it. */
  lemma AdmissionSeesTheLog(l: Limit, calls: seq<Call>)
    requires calls != [] && ValidRun(l, calls) && ClockForward(calls)
    requires NeverForgets(l, calls[..|calls| - 1]) && l.maxActions < U32_RANGE
    ensures
      var before, c := calls[..|calls| - 1], calls[|calls| - 1];
      Admits(Run(l, before), l, c) <==> |Retained(Admissions(l, before, c.key), c.now, l.windowUs)| < l.maxActions
  {
    var n, c := |calls| - 1, calls[|calls| - 1];
    MemoryIsComplete(l, calls[..n], c.key);
    VictimIsNotTheKey(l, calls);
    AttemptsAreBounded(l, calls[..n]);
    var now := if n == 0 then 0 else calls[n - 1].now;
    DecisionSeesTheLog(Run(l, calls[..n]), l, c, Admissions(l, calls[..n], c.key), now);
  }

  /**
   For a clock that does not run backwards and evictions that forget only old attempts, the
   admissions of every key are spaced over the whole run.
   */
  lemma {:induction false} AdmissionsAreSpaced(l: Limit, calls: seq<Call>, key: string)
    requires ValidRun(l, calls) && ClockForward(calls) && NeverForgets(l, calls) && l.maxActions < U32_RANGE
    ensures Spaced(Admissions(l, calls, key), l)
  {
    if calls == [] {
    } else {
      var n, c := |calls| - 1, calls[|calls| - 1];
      var before := calls[..n];
      AdmissionsAreSpaced(l, before, key);
      if c.key == key && Admits(Run(l, before), l, c) {
        AdmissionSeesTheLog(l, calls);
        AdmissionsAreOver(l, calls, key);
        AdmissionIsSpaced(Admissions(l, before, key), l, c.now);
      } else {
        assert Admissions(l, calls, key) == Admissions(l, before, key);
      }
    }
  }

  lemma AdmissionsAreOver(l: Limit, calls: seq<Call>, key: string)
    requires ClockForward(calls) && calls != []
    ensures var log := Admissions(l, calls[..|calls| - 1], key);
            forall i :: 0 <= i < |log| ==> log[i] <= calls[|calls| - 1].now
  {
    var n := |calls| - 1;
    if n > 0 {
      AdmissionsBefore(l, calls[..n], key);
      assert calls[n - 1].now <= calls[n].now;
    }
  }

  /** In a spaced log, a span shorter than the window holds at most `maxActions` admissions. */
  lemma SpanIsLimited(log: Log, l: Limit, first: nat, last: nat)
    requires Spaced(log, l) && first <= last < |log|
    requires log[last] - log[first] < l.windowUs
    ensures last - first + 1 <= l.maxActions
  {
    if last >= l.maxActions {
      assert SatSub(log[last], log[last - l.maxActions]) >= l.windowUs;
      assert log[last - l.maxActions] < log[first];
    }
  }

  // ------------------------------------------------ when eviction is harmless

  ghost function RecentKeys(limits: map<string, Log>, l: Limit, now: nat): set<string> {
    set k | k in limits && Retained(limits[k], now, l.windowUs) != []
  }

  ghost predicate OrderedAttempts(limits: map<string, Log>, l: Limit) {
    forall k :: k in limits ==> NonDecreasing(limits[k]) && (l.maxActions > 0 ==> limits[k] != [])
                                && (l.maxActions == 0 ==> limits[k] == [])
  }

  /** If fewer than `maxKeys` tracked keys have a recent attempt, the key given up is not one of them. */
  lemma EvictionIsHarmlessWithSpareKeys(limits: map<string, Log>, l: Limit, c: Call)
    requires ValidVictim(limits, l, c.key, c.victim) && OrderedAttempts(limits, l)
    requires |RecentKeys(limits, l, c.now)| < l.maxKeys
    ensures ForgetsOnlyOld(limits, l, c)
  {
    if c.victim.Some? {
      var v, recent := c.victim.value, RecentKeys(limits, l, c.now);
      assert |limits.Keys| == |limits|;
      assert recent != limits.Keys;
      var k :| k in limits && k !in recent;
      RetainedIsEmptyWhenAllOld(limits[k], c.now, l.windowUs);
      RetainedIsEmptyWhenAllOld(limits[v], c.now, l.windowUs);
      assert Latest(limits[v]) <= Latest(limits[k]);
    }
  }

  lemma {:induction false} RetainedOrdered(ts: Log, now: nat, windowUs: nat)
    requires NonDecreasing(ts)
    ensures NonDecreasing(Retained(ts, now, windowUs))
    ensures forall t :: t in Retained(ts, now, windowUs) ==> t in ts
  {
    if ts == [] {
    } else {
      var n := |ts| - 1;
      RetainedOrdered(ts[..n], now, windowUs);
      var r := Retained(ts[..n], now, windowUs);
      forall i | 0 <= i < |r|
        ensures r[i] <= ts[n]
      {
        assert r[i] in r;
        assert r[i] in ts[..n];
      }
    }
  }

  ghost predicate AllBefore(limits: map<string, Log>, now: nat) {
    forall k, i :: k in limits && 0 <= i < |limits[k]| ==> limits[k][i] <= now
  }

  lemma {:induction false} AttemptsStayOrdered(l: Limit, calls: seq<Call>)
    requires ClockForward(calls) && l.maxActions < U32_RANGE
    ensures OrderedAttempts(Run(l, calls), l)
    ensures AllBefore(Run(l, calls), if calls == [] then 0 else calls[|calls| - 1].now)
  {
    if calls == [] {
    } else {
      var n, c := |calls| - 1, calls[|calls| - 1];
      var before := calls[..n];
      AttemptsStayOrdered(l, before);
      if n > 0 {
        assert calls[n - 1].now <= c.now;
      }
      var limits := Run(l, before);
      AttemptsAreBounded(l, before);
      var attempts := AttemptsOf(Without(limits, c.victim), c.key);
      RetainedOrdered(attempts, c.now, l.windowUs);
      RetainedSize(attempts, c.now, l.windowUs);
      var kept := Retained(attempts, c.now, l.windowUs);
      forall i | 0 <= i < |kept|
        ensures kept[i] <= c.now
      {
        assert kept[i] in kept;
      }
      CheckedStaysOrdered(limits, l, c, kept);
    }
  }

  lemma CheckedStaysOrdered(limits: map<string, Log>, l: Limit, c: Call, kept: Log)
    requires OrderedAttempts(limits, l) && AllBefore(limits, c.now)
    requires kept == Retained(AttemptsOf(Without(limits, c.victim), c.key), c.now, l.windowUs)
    requires NonDecreasing(kept) && |kept| <= l.maxActions < U32_RANGE
    requires forall i :: 0 <= i < |kept| ==> kept[i] <= c.now
    ensures OrderedAttempts(Checked(limits, l, c), l) && AllBefore(Checked(limits, l, c), c.now)
  {
  }

  /** Whenever a key was given up, a tracked key without recent attempts existed. */
  ghost predicate KeysToSpare(l: Limit, calls: seq<Call>) {
    calls == [] ||
    (var before, c := calls[..|calls| - 1], calls[|calls| - 1];
     && KeysToSpare(l, before)
     && (c.victim.Some? ==> |RecentKeys(Run(l, before), l, c.now)| < l.maxKeys))
  }

  lemma {:induction false} SpareKeysNeverForget(l: Limit, calls: seq<Call>)
    requires ValidRun(l, calls) && ClockForward(calls) && KeysToSpare(l, calls) && l.maxActions < U32_RANGE
    ensures NeverForgets(l, calls)
  {
    if calls == [] {
    } else {
      var before, c := calls[..|calls| - 1], calls[|calls| - 1];
      SpareKeysNeverForget(l, before);
      AttemptsStayOrdered(l, before);
      if c.victim.Some? {
        EvictionIsHarmlessWithSpareKeys(Run(l, before), l, c);
      }
    }
  }

  /**
   The limit over whole runs: any two admissions of a key less than a window apart have at most
   `maxActions` admissions from the one to the other, as long as evictions find a key to spare.
   */
  lemma {:induction false} RateLimitHolds(l: Limit, calls: seq<Call>, key: string, first: nat, last: nat)
    requires ValidRun(l, calls) && ClockForward(calls) && KeysToSpare(l, calls) && l.maxActions < U32_RANGE
    requires first <= last < |Admissions(l, calls, key)|
    requires SatSub(Admissions(l, calls, key)[last], Admissions(l, calls, key)[first]) < l.windowUs
    ensures last - first + 1 <= l.maxActions
  {
    SpareKeysNeverForget(l, calls);
    AdmissionsAreSpaced(l, calls, key);
    SpanIsLimited(Admissions(l, calls, key), l, first, last);
  }
}
