/**
 What an admitted request does: the effect it asks for, once, with what belongs to it and nothing
 else; and what the client is told.
 */
module ActionEffects {
  import opened Common
  import opened RateLimit
  import opened Actions

  // ------------------------------------------------ what a request asks for

  /** `v` is the asked value, or the nearer bound if that lies outside. */
  predicate Nearest(v: nat, asked: nat, low: nat, high: nat) {
    low <= v <= high && (v < asked ==> v == high) && (v > asked ==> v == low)
  }

  /** `until` is so many seconds after `now`, as far as 64 bits reach. */
  predicate Lasts(until: nat, now: nat, secs: nat) {
    until == Min(now + secs * 1_000_000, U64_MAX)
  }

  predicate Asked(cfg: Config, r: Request, e: Effect) {
    match r.action
    case RestartUnit(u) => e == ManagerCall(u, false)
    case StopUnit(u) => e == ManagerCall(u, true)
    case TerminateProcess(pid, _) => e == Sigterm(pid)
    case BlockIp(ip, secs) =>
      e.NftBlock? && e.ip == ip
      && Nearest(e.durationSecs, secs, cfg.blockIpMinSecs, Max(cfg.blockIpMinSecs, cfg.blockIpMaxSecs))
    case MuteAnomaly(t, m, scope) =>
      e.Mute? && e.template == t && e.muted == m
      && match scope
         case OneHour => Lasts(e.until, r.now, 3_600)
         case OneDay => Lasts(e.until, r.now, 86_400)
         case Permanent => e.until == U64_MAX
  }

  /** The log lines the request provokes are filtered for the configured time. */
  predicate Filters(cfg: Config, r: Request, e: Effect) {
    match r.action
    case RestartUnit(u) => e.SuppressUnit? && e.unit == u && Lasts(e.until, r.now, cfg.selfFilterWindowSecs)
    case StopUnit(u) => e.SuppressUnit? && e.unit == u && Lasts(e.until, r.now, cfg.selfFilterWindowSecs)
    case TerminateProcess(pid, _) =>
      e.SuppressPid? && e.pid == pid && Lasts(e.until, r.now, cfg.selfFilterWindowSecs)
    case _ => false
  }

  /** A process that survives its signal is killed after the grace period. */
  predicate Kills(cfg: Config, r: Request, e: Effect) {
    && r.action.TerminateProcess? && e.KillLater? && e.pid == r.action.pid
    && Nearest(e.graceSecs, r.action.graceSecs, 1, Max(1, cfg.terminateMaxGraceSecs))
  }

  /** Exactly one of the effects has the property. */
  ghost predicate Once(es: seq<Effect>, f: Effect -> bool) {
    exists i :: 0 <= i < |es| && f(es[i]) && forall j :: 0 <= j < |es| && f(es[j]) ==> j == i
  }

  ghost predicate Never(es: seq<Effect>, f: Effect -> bool) {
    forall i :: 0 <= i < |es| ==> !f(es[i])
  }

  predicate LeavesTraces(a: Action) {
    a.RestartUnit? || a.StopUnit? || a.TerminateProcess?
  }

  /**
   The effects are those of the request: the one it asks for, a filter entry if it leaves traces in
   the log, a later kill exactly if its signal was sent, and nothing else.
   */
  ghost predicate Fulfils(cfg: Config, r: Request, es: seq<Effect>) {
    var filtered, killed := LeavesTraces(r.action), r.action.TerminateProcess? && r.ok;
    && Once(es, e => Asked(cfg, r, e))
    && (if filtered then Once(es, e => Filters(cfg, r, e)) else Never(es, e => Filters(cfg, r, e)))
    && (if killed then Once(es, e => Kills(cfg, r, e)) else Never(es, (e: Effect) => e.KillLater?))
    && |es| == 1 + (if filtered then 1 else 0) + (if killed then 1 else 0)
  }

  lemma UntilLasts(now: nat, secs: nat)
    ensures Lasts(Until(now, secs), now, secs)
  {
  }

  lemma ClampIsNearest(v: nat, low: nat, high: nat)
    requires low <= high
    ensures Nearest(Clamp(v, low, high), v, low, high)
  {
  }

  lemma TheOnly(es: seq<Effect>, f: Effect -> bool, i: nat)
    requires i < |es| && f(es[i]) && forall j :: 0 <= j < |es| && f(es[j]) ==> j == i
    ensures Once(es, f)
  {
  }

  lemma UnitActionFulfils(cfg: Config, r: Request)
    requires !cfg.dryRun && (r.action.RestartUnit? || r.action.StopUnit?)
    ensures Fulfils(cfg, r, Dispatched(cfg, r.action, r.now, r.ok))
  {
    UntilLasts(r.now, cfg.selfFilterWindowSecs);
    var es := Dispatched(cfg, r.action, r.now, r.ok);
    TheOnly(es, e => Asked(cfg, r, e), 1);
    TheOnly(es, e => Filters(cfg, r, e), 0);
  }

  lemma TerminationFulfils(cfg: Config, r: Request)
    requires !cfg.dryRun && r.action.TerminateProcess?
    ensures Fulfils(cfg, r, Dispatched(cfg, r.action, r.now, r.ok))
  {
    hide Until, Clamp, Nearest, Lasts;
    UntilLasts(r.now, cfg.selfFilterWindowSecs);
    ClampIsNearest(r.action.graceSecs, 1, Max(cfg.terminateMaxGraceSecs, 1));
    var es := Dispatched(cfg, r.action, r.now, r.ok);
    TheOnly(es, e => Asked(cfg, r, e), 1);
    TheOnly(es, e => Filters(cfg, r, e), 0);
    if r.ok {
      TheOnly(es, e => Kills(cfg, r, e), 2);
    }
  }

  lemma SingleEffectFulfils(cfg: Config, r: Request)
    requires !cfg.dryRun && (r.action.BlockIp? || r.action.MuteAnomaly?)
    ensures Fulfils(cfg, r, Dispatched(cfg, r.action, r.now, r.ok))
  {
    if r.action.BlockIp? {
      ClampIsNearest(r.action.durationSecs, cfg.blockIpMinSecs, Max(cfg.blockIpMaxSecs, cfg.blockIpMinSecs));
    }
    TheOnly(Dispatched(cfg, r.action, r.now, r.ok), e => Asked(cfg, r, e), 0);
  }

  // ------------------------------------------------ over runs and interleavings

  /** The effects a request has caused so far. */
  ghost function CausedBy(trace: seq<Caused>, k: nat): seq<Effect> {
    if trace == [] then []
    else
      var last := trace[|trace| - 1];
      CausedBy(trace[..|trace| - 1], k) + if last.request == k then [last.effect] else []
  }

  lemma {:induction false} CausedNext(trace: seq<Caused>, c: Caused, k: nat)
    ensures CausedBy(trace + [c], k) == CausedBy(trace, k) + if c.request == k then [c.effect] else []
  {
    assert (trace + [c])[..|trace|] == trace;
  }

  lemma {:induction false} TurnConserves(p: Play, i: nat, k: nat)
    requires k < |p.left|
    ensures |Advance(p, i).left| == |p.left|
    ensures CausedBy(Advance(p, i).trace, k) + Advance(p, i).left[k] == CausedBy(p.trace, k) + p.left[k]
  {
    if i < |p.left| && p.left[i] != [] {
      CausedNext(p.trace, Caused(i, p.left[i][0]), k);
      if i == k {
        assert p.left[k] == [p.left[k][0]] + p.left[k][1..];
      }
    }
  }

  /** However the turns fall, what a request has caused and what it has left are together what it had to do. */
  lemma {:induction false} PlayConserves(p: Play, turns: seq<nat>, k: nat)
    requires k < |p.left|
    ensures var q := Played(p, turns);
            |q.left| == |p.left| && CausedBy(q.trace, k) + q.left[k] == CausedBy(p.trace, k) + p.left[k]
  {
    if turns == [] {
    } else {
      var n := |turns| - 1;
      PlayConserves(p, turns[..n], k);
      TurnConserves(Played(p, turns[..n]), turns[n], k);
    }
  }

  /** The request has passed everything and is not a rehearsal. */
  ghost predicate Effective(cfg: Config, rs: seq<Request>, k: nat)
    requires k < |rs|
  {
    !cfg.dryRun && Admitted(cfg, LimitsRun(cfg, rs[..k]), rs[k])
  }

  /**
   In every interleaving of every run, what an admitted request has caused and still has to do is
   exactly what it asks for; a refused or rehearsed one causes nothing.
   */
  lemma {:induction false} RequestsActExactlyOnce(cfg: Config, rs: seq<Request>, turns: seq<nat>, k: nat)
    requires k < |rs|
    ensures
      var p := Played(Play([], Queues(cfg, rs)), turns);
      && |p.left| == |rs|
      && (if Effective(cfg, rs, k) then Fulfils(cfg, rs[k], CausedBy(p.trace, k) + p.left[k])
          else CausedBy(p.trace, k) == [] && p.left[k] == [])
  {
    hide Dispatched, Played, Queues, Admitted, LimitsRun, Fulfils, CausedBy;
    var r := rs[k];
    PlayConserves(Play([], Queues(cfg, rs)), turns, k);
    QueuesAt(cfg, rs, k);
    NothingCaused(k);
    if Effective(cfg, rs, k) {
      var q := Played(Play([], Queues(cfg, rs)), turns);
      assert CausedBy(q.trace, k) + q.left[k] == Dispatched(cfg, r.action, r.now, r.ok);
      if r.action.RestartUnit? || r.action.StopUnit? {
        UnitActionFulfils(cfg, r);
      } else if r.action.TerminateProcess? {
        TerminationFulfils(cfg, r);
      } else {
        SingleEffectFulfils(cfg, r);
      }
    } else {
      NothingDispatched(cfg, r);
    }
  }

  lemma {:induction false} NothingCaused(k: nat)
    ensures CausedBy([], k) == []
  {
  }

  lemma NothingDispatched(cfg: Config, r: Request)
    ensures cfg.dryRun ==> Dispatched(cfg, r.action, r.now, r.ok) == []
  {
  }

  ghost function Concatenated(qs: seq<seq<Effect>>): seq<Effect> {
    if qs == [] then [] else Concatenated(qs[..|qs| - 1]) + qs[|qs| - 1]
  }

  /** One after the other, the requests cause their effects in the order they came. */
  lemma {:induction false} TraceIsInOrder(cfg: Config, rs: seq<Request>)
    ensures Trace(cfg, rs) == Concatenated(Queues(cfg, rs))
  {
    hide EffectsOf, LimitsRun;
    if rs == [] {
    } else {
      var n := |rs| - 1;
      TraceIsInOrder(cfg, rs[..n]);
      assert Queues(cfg, rs)[..n] == Queues(cfg, rs[..n]);
    }
  }

  // ------------------------------------------------ what the client is told

  /** The allow-lists admit the action. */
  predicate Allowed(cfg: Config, a: Action) {
    match a
    case RestartUnit(u) => "restart_unit" in cfg.allowedKinds && u in cfg.allowedUnits
    case StopUnit(u) => "stop_unit" in cfg.allowedKinds && u in cfg.allowedUnits
    case TerminateProcess(_, _) => "terminate_process" in cfg.allowedKinds
    case BlockIp(_, _) => "block_ip" in cfg.allowedKinds
    case MuteAnomaly(_, _, _) => "mute_anomaly" in cfg.allowedKinds
  }

  predicate Wrong(cfg: Config, a: Action, why: BadParameter) {
    match why
    case PidZero => a.TerminateProcess? && a.pid == 0
    case PidInit => a.TerminateProcess? && a.pid == 1
    case PidNegative => a.TerminateProcess? && a.pid >= 0x8000_0000
    case PidOwn => a.TerminateProcess? && 2 <= a.pid < 0x8000_0000 && a.pid == cfg.ownPid
    case UnitTooLong => a.MuteAnomaly? && a.muted.Some? && |a.muted.value| > 255
  }

  ghost predicate Faultless(cfg: Config, a: Action) {
    forall why :: !Wrong(cfg, a, why)
  }

  lemma ParameterFaults(cfg: Config, a: Action, why: BadParameter)
    ensures BadParameterOf(a, cfg.ownPid) == Some(why) <==> Wrong(cfg, a, why)
  {
  }

  lemma ListedWhenAllowed(cfg: Config, a: Action)
    ensures Listed(cfg, a) <==> Allowed(cfg, a)
  {
  }

  /**
   Each answer is given for exactly one reason, looked for in this order: the allow-lists, the
   parameters, the rate limit, the rehearsal, and whether the outside world accepted.
   */
  lemma OutcomesTellWhatHappened(cfg: Config, limits: map<string, Log>, r: Request)
    ensures
      var o := OutcomeOf(cfg, limits, r);
      var admitted := Allowed(cfg, r.action) && Faultless(cfg, r.action) && Admits(limits, LimitOf(cfg), CallOf(r));
      var accepted := r.ok || r.action.MuteAnomaly?;
      && (o == NotAllowed <==> !Allowed(cfg, r.action))
      && (forall why :: o == InvalidParameter(why) <==> Allowed(cfg, r.action) && Wrong(cfg, r.action, why))
      && (o.RateLimited? <==> Allowed(cfg, r.action) && Faultless(cfg, r.action) && !admitted)
      && (o.RateLimited? ==> o.retryAfterSecs == RetryAfter(
             AttemptsOf(LimitsAfter(cfg, limits, r), RateKey(r.action)), r.now, LimitOf(cfg).windowUs))
      && (o == Completed(true) <==> admitted && cfg.dryRun)
      && (o == Completed(false) <==> admitted && !cfg.dryRun && accepted)
      && (o == Failed <==> admitted && !cfg.dryRun && !accepted)
      && (Admitted(cfg, limits, r) <==> admitted)
  {
    hide Kind, Admits, Wrong, BadParameterOf, Listed, Allowed;
    ListedWhenAllowed(cfg, r.action);
    forall why
      ensures BadParameterOf(r.action, cfg.ownPid) == Some(why) <==> Wrong(cfg, r.action, why)
    {
      ParameterFaults(cfg, r.action, why);
    }
  }

  /** The window of the rate limit is the configured number of minutes, as far as 64 bits reach. */
  lemma RateWindowInMicroseconds(cfg: Config)
    ensures LimitOf(cfg).windowUs == Min(cfg.rateLimitWindowMinutes * 60_000_000, U64_MAX)
    ensures LimitOf(cfg).maxActions == cfg.rateLimitMaxActions && LimitOf(cfg).maxKeys == 10_000
  {
  }

  // ------------------------------------------------ numbers in the audit log

  function DigitValue(c: char): nat {
    if '0' <= c <= '9' then (c as int - '0' as int) as nat else 0
  }

  function ValueOf(text: string): nat {
    if text == [] then 0 else ValueOf(text[..|text| - 1]) * 10 + DigitValue(text[|text| - 1])
  }

  /** A number in a target text reads back as itself. */
  lemma {:induction false} DecimalReadsBack(n: nat)
    ensures ValueOf(Decimal(n)) == n
    decreases n
  {
    if n >= 10 {
      DecimalReadsBack(n / 10);
      var text := Decimal(n);
      assert text[..|text| - 1] == Decimal(n / 10);
      DigitReadsBack(n % 10);
    } else {
      DigitReadsBack(n);
      assert Decimal(n)[..0] == [];
    }
  }

  lemma DigitReadsBack(d: nat)
    requires d < 10
    ensures DigitValue(Digit(d)) == d
  {
  }
}
