/**
 Event rates per template over equal time buckets.

 The tracker keeps, for each template it knows, the count of the running bucket and a bounded
 history of closed buckets. The plain form it stands for is the log of all events: entry `k` of
 a history should be the number of that template's events in the corresponding bucket.
 */
module Rate {
  import opened Common

  datatype TemplateRate = TemplateRate(current: nat, history: seq<nat>, lastActive: nat)

  datatype RateConfig = RateConfig(bucketUs: nat, historyLen: nat, maxTemplates: nat, idleBuckets: nat) {
    predicate Valid() {
      bucketUs > 0 && historyLen > 0 && maxTemplates > 0 && idleBuckets > 0
    }
  }

  /** The clamped configuration the tracker works with. */
  function Configure(bucketSeconds: nat, historyLen: nat, maxTemplates: nat, idleBuckets: nat): (c: RateConfig)
    ensures c.Valid()
  {
    RateConfig(SatMul(Max(bucketSeconds, 1), 1_000_000), Max(historyLen, 1), Max(maxTemplates, 1), Max(idleBuckets, 1))
  }

  datatype State = State(rates: map<nat, TemplateRate>, current: nat, start: nat, started: bool)

  const EMPTY: State := State(map[], 0, 0, false)

  // ------------------------------------------------ bounded histories

  function PushBounded(h: seq<nat>, v: nat, maxLen: nat): seq<nat> {
    (if |h| >= maxLen && h != [] then h[1..] else h) + [v]
  }

  function PushZeros(h: seq<nat>, n: nat, maxLen: nat): seq<nat> {
    if n == 0 then h else PushBounded(PushZeros(h, n - 1, maxLen), 0, maxLen)
  }

  function Zeros(n: nat): (z: seq<nat>) {
    seq(n, _ => 0)
  }

  function LastOf(h: seq<nat>, n: nat): seq<nat> {
    h[|h| - Min(n, |h|)..]
  }

  /** Pushing zeros one by one keeps the last `maxLen` entries of the unbounded history. */
  lemma {:induction false} PushZerosIsSuffix(h: seq<nat>, n: nat, maxLen: nat)
    requires |h| <= maxLen && maxLen > 0
    ensures PushZeros(h, n, maxLen) == LastOf(h + Zeros(n), maxLen)
  {
    if n == 0 {
      assert h + Zeros(0) == h;
    } else {
      PushZerosIsSuffix(h, n - 1, maxLen);
      assert h + Zeros(n) == (h + Zeros(n - 1)) + [0];
    }
  }

  // ------------------------------------------------ one event

  function BucketOf(cfg: RateConfig, now: nat): nat
    requires cfg.Valid()
  {
    now / cfg.bucketUs
  }

  /** One template when the running bucket is closed and `gap` buckets pass. */
  function RollRate(rate: TemplateRate, gap: nat, historyLen: nat): TemplateRate
    requires gap > 0 && historyLen > 0
  {
    rate.(history :=
            PushZeros(PushBounded(rate.history, rate.current, historyLen), Min(gap, historyLen) - 1, historyLen),
          current := 0)
  }

  function RollOver(rates: map<nat, TemplateRate>, cfg: RateConfig, gap: nat, target: nat): map<nat, TemplateRate>
    requires cfg.Valid() && gap > 0
  {
    map id | id in rates && rates[id].lastActive >= SatSub(target, cfg.idleBuckets) ::
      RollRate(rates[id], gap, cfg.historyLen)
  }

  /** The tracker once its clock has reached the bucket of an event; late events do not move it back. */
  function Advance(s: State, cfg: RateConfig, bucket: nat): State
    requires cfg.Valid()
  {
    if !s.started then State(s.rates, bucket, bucket, true)
    else if bucket > s.current then
      s.(rates := RollOver(s.rates, cfg, bucket - s.current, bucket), current := bucket)
    else s
  }

  function Window(s: State, cfg: RateConfig): nat {
    Min(SatSub(s.current, s.start), cfg.historyLen)
  }

  /** The templates that stay when `id` needs an entry; `victim` is the one given up, if any. */
  function Without(rates: map<nat, TemplateRate>, victim: Option<nat>): map<nat, TemplateRate> {
    if victim.Some? then rates - {victim.value} else rates
  }

  /** A template is given up only for a new one at the bound, and it is one of the longest inactive. */
  ghost predicate ValidVictim(rates: map<nat, TemplateRate>, cfg: RateConfig, id: nat, victim: Option<nat>) {
    if id in rates || |rates| < cfg.maxTemplates then victim == None
    else
      && victim.Some? && victim.value in rates
      && forall j :: j in rates ==> rates[victim.value].lastActive <= rates[j].lastActive
  }

  /** The entry of the template after the event, given its entry before. */
  function Counted(entry: Option<TemplateRate>, window: nat, current: nat): TemplateRate {
    var rate := if entry.Some? then entry.value else TemplateRate(0, Zeros(window), current);
    rate.(current := rate.current + 1, lastActive := current)
  }

  function Lookup(rates: map<nat, TemplateRate>, id: nat): Option<TemplateRate> {
    if id in rates then Some(rates[id]) else None
  }

  /** The tracker after one event. */
  function Step(s: State, cfg: RateConfig, e: Event): State
    requires cfg.Valid()
  {
    var a := Advance(s, cfg, BucketOf(cfg, e.now));
    var kept := Without(a.rates, e.victim);
    a.(rates := kept[e.id := Counted(Lookup(kept, e.id), Window(a, cfg), a.current)])
  }

  /** An event, together with the template the tracker chose to give up for it. */
  datatype Event = Event(now: nat, id: nat, victim: Option<nat>)

  class RateTracker {
    var rates: map<nat, TemplateRate>
    var currentBucket: nat
    var startBucket: nat
    var started: bool
    const cfg: RateConfig

    ghost predicate Valid()
      reads this
    {
      cfg.Valid()
    }

    function View(): State
      reads this
    {
      State(rates, currentBucket, startBucket, started)
    }

    constructor (bucketSeconds: nat, historyLen: nat, maxTemplates: nat, idleBuckets: nat)
      ensures Valid() && View() == EMPTY
      ensures cfg == Configure(bucketSeconds, historyLen, maxTemplates, idleBuckets)
    {
      rates, currentBucket, startBucket, started := map[], 0, 0, false;
      cfg := Configure(bucketSeconds, historyLen, maxTemplates, idleBuckets);
    }

    /** Closes all buckets before `target`. */
    method RollOverTo(target: nat)
      requires Valid() && started && target > currentBucket
      modifies this
      ensures Valid() && View() == Advance(old(View()), cfg, target)
    {
      var gap := target - currentBucket;
      var fill := Min(gap, cfg.historyLen);
      var cutoff := SatSub(target, cfg.idleBuckets);
      ghost var all := RollOver(rates, cfg, gap, target);
      var todo := rates.Keys;
      var retained: map<nat, TemplateRate> := map[];
      while todo != {}
        invariant todo <= rates.Keys
        invariant retained == map id | id in all && id !in todo :: all[id]
        invariant View() == old(View())
        decreases todo
      {
        var id :| id in todo;
        todo := todo - {id};
        var rate := rates[id];
        var history := PushBounded(rate.history, rate.current, cfg.historyLen);
        for i := 1 to fill
          invariant history == PushZeros(PushBounded(rate.history, rate.current, cfg.historyLen), i - 1, cfg.historyLen)
        {
          history := PushBounded(history, 0, cfg.historyLen);
        }
        if rate.lastActive >= cutoff {
          retained := retained[id := TemplateRate(0, history, rate.lastActive)];
        }
      }
      assert retained == all;
      rates := retained;
      currentBucket := target;
    }

    /** Gives up one of the longest inactive templates when the bound is reached. */
    method EnsureCapacity() returns (victim: Option<nat>)
      requires Valid()
      modifies `rates
      ensures victim.None? <==> |old(rates)| < cfg.maxTemplates
      ensures victim.Some? ==>
                && victim.value in old(rates)
                && forall j :: j in old(rates) ==> old(rates)[victim.value].lastActive <= old(rates)[j].lastActive
      ensures rates == Without(old(rates), victim)
    {
      if |rates| < cfg.maxTemplates {
        return None;
      }
      assert rates.Keys != {};
      var todo := rates.Keys;
      var oldest :| oldest in todo;
      todo := todo - {oldest};
      while todo != {}
        invariant oldest in rates && todo <= rates.Keys
        invariant forall j :: j in rates && j !in todo ==> rates[oldest].lastActive <= rates[j].lastActive
        decreases todo
      {
        var id :| id in todo;
        todo := todo - {id};
        if rates[id].lastActive < rates[oldest].lastActive {
          oldest := id;
        }
      }
      rates := rates - {oldest};
      return Some(oldest);
    }

    /** Counts one event; the rate score is computed from the returned sample and count. */
    method Record(now: nat, id: nat) returns (victim: Option<nat>, sample: seq<nat>, count: nat)
      requires Valid()
      modifies this
      ensures Valid()
      ensures ValidVictim(Advance(old(View()), cfg, BucketOf(cfg, now)).rates, cfg, id, victim)
      ensures View() == Step(old(View()), cfg, Event(now, id, victim))
      ensures id in rates && sample == rates[id].history && count == rates[id].current
    {
      var bucket := BucketOf(cfg, now);
      if !started {
        currentBucket, startBucket, started := bucket, bucket, true;
      } else if bucket > currentBucket {
        RollOverTo(bucket);
      }
      victim := None;
      if id !in rates {
        victim := EnsureCapacity();
      }
      var prefill := Min(SatSub(currentBucket, startBucket), cfg.historyLen);
      var entry := if id in rates then rates[id] else TemplateRate(0, Zeros(prefill), currentBucket);
      entry := entry.(current := entry.current + 1, lastActive := currentBucket);
      rates := rates[id := entry];
      return victim, entry.history, entry.current;
    }
  }
}
