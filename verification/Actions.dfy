/**
 Execution of client actions: allow-list, parameter checks, rate limit, dry run, dispatch, audit.

 What an action does outside the daemon is recorded as an effect; whether the outside world
 succeeds is a parameter.
 */
module Actions {
  import opened Common
  import opened RateLimit
  import opened RateLimitExact

  datatype MuteScope = OneHour | OneDay | Permanent

  /** Unit names and addresses are byte strings; process ids, durations and ids are numbers. */
  datatype Action =
    | RestartUnit(unit: string)
    | StopUnit(unit: string)
    | TerminateProcess(pid: nat, graceSecs: nat)
    | BlockIp(ip: string, durationSecs: nat)
    | MuteAnomaly(template: nat, muted: Option<string>, scope: MuteScope)

  datatype Config = Config(
    dryRun: bool, allowedKinds: seq<string>, allowedUnits: seq<string>,
    rateLimitMaxActions: nat, rateLimitWindowMinutes: nat, selfFilterWindowSecs: nat,
    terminateMaxGraceSecs: nat, blockIpMinSecs: nat, blockIpMaxSecs: nat, ownPid: nat)

  datatype BadParameter = PidZero | PidInit | PidNegative | PidOwn | UnitTooLong

  datatype Outcome =
    | NotAllowed
    | InvalidParameter(reason: BadParameter)
    | RateLimited(retryAfterSecs: nat)
    | Completed(dryRun: bool)
    | Failed

  datatype Effect =
    | SuppressUnit(unit: string, until: nat)
    | SuppressPid(pid: nat, until: nat)
    | ManagerCall(unit: string, stop: bool)
    | Sigterm(pid: nat)
    | KillLater(pid: nat, graceSecs: nat)
    | NftBlock(ip: string, durationSecs: nat)
    | Mute(template: nat, muted: Option<string>, until: nat)

  const I32_MAX: nat := 0x7FFF_FFFF
  const MAX_MUTE_UNIT_LEN: nat := 255

  // ------------------------------------------------ pure descriptions

  function Kind(a: Action): string {
    match a
    case RestartUnit(_) => "restart_unit"
    case StopUnit(_) => "stop_unit"
    case TerminateProcess(_, _) => "terminate_process"
    case BlockIp(_, _) => "block_ip"
    case MuteAnomaly(_, _, _) => "mute_anomaly"
  }

  function Digit(d: nat): char
    requires d < 10
  {
    "0123456789"[d]
  }

  function Decimal(n: nat): string {
    if n < 10 then [Digit(n)] else Decimal(n / 10) + [Digit(n % 10)]
  }

  function Target(a: Action): string {
    match a
    case RestartUnit(u) => u
    case StopUnit(u) => u
    case TerminateProcess(pid, _) => Decimal(pid)
    case BlockIp(ip, _) => ip
    case MuteAnomaly(t, m, _) => if m.Some? then Decimal(t) + "@" + m.value else Decimal(t)
  }

  function RateKey(a: Action): string {
    Kind(a) + ":" + Target(a)
  }

  function UnitOf(a: Action): Option<string> {
    match a
    case RestartUnit(u) => Some(u)
    case StopUnit(u) => Some(u)
    case _ => None
  }

  function BadParameterOf(a: Action, ownPid: nat): Option<BadParameter> {
    match a
    case TerminateProcess(pid, _) =>
      if pid == 0 then Some(PidZero)
      else if pid == 1 then Some(PidInit)
      else if pid > I32_MAX then Some(PidNegative)
      else if pid == ownPid then Some(PidOwn)
      else None
    case MuteAnomaly(_, m, _) => if m.Some? && |m.value| > MAX_MUTE_UNIT_LEN then Some(UnitTooLong) else None
    case _ => None
  }

  function Clamp(v: nat, low: nat, high: nat): nat {
    if v < low then low else if v > high then high else v
  }

  function Until(now: nat, secs: nat): nat {
    SatAdd(now, SatMul(secs, 1_000_000))
  }

  /** Effects of an admitted action; `ok` tells whether the outside world accepts it. */
  function Dispatched(cfg: Config, a: Action, now: nat, ok: bool): seq<Effect> {
    if cfg.dryRun then []
    else match a
      case RestartUnit(u) => [SuppressUnit(u, Until(now, cfg.selfFilterWindowSecs)), ManagerCall(u, false)]
      case StopUnit(u) => [SuppressUnit(u, Until(now, cfg.selfFilterWindowSecs)), ManagerCall(u, true)]
      case TerminateProcess(pid, grace) =>
        [SuppressPid(pid, Until(now, cfg.selfFilterWindowSecs)), Sigterm(pid)]
        + if ok then [KillLater(pid, Clamp(grace, 1, Max(cfg.terminateMaxGraceSecs, 1)))] else []
      case BlockIp(ip, secs) =>
        [NftBlock(ip, Clamp(secs, cfg.blockIpMinSecs, Max(cfg.blockIpMaxSecs, cfg.blockIpMinSecs)))]
      case MuteAnomaly(t, m, scope) =>
        [Mute(t, m, match scope case OneHour => SatAdd(now, 3_600_000_000)
                                case OneDay => SatAdd(now, 86_400_000_000)
                                case Permanent => U64_MAX)]
  }

  predicate Listed(cfg: Config, a: Action) {
    Kind(a) in cfg.allowedKinds && (UnitOf(a).Some? ==> UnitOf(a).value in cfg.allowedUnits)
  }

  /** The action reaches the rate limit. */
  predicate Eligible(cfg: Config, a: Action) {
    Listed(cfg, a) && BadParameterOf(a, cfg.ownPid).None?
  }

  // ------------------------------------------------ the executor

  /** One line of the audit log. */
  datatype Audit = Audit(request: nat, now: nat, kind: string, target: string, outcome: Outcome)

  class ActionExecutor {
    const cfg: Config
    const limiter: RateLimiter
    var effects: seq<Effect>
    var audit: seq<Audit>

    constructor (cfg: Config)
      ensures this.cfg == cfg && effects == [] && audit == []
      ensures fresh(limiter) && limiter.limits == map[] && limiter.limit == LimitOf(cfg)
    {
      this.cfg := cfg;
      limiter := new RateLimiter(cfg.rateLimitWindowMinutes, cfg.rateLimitMaxActions);
      effects, audit := [], [];
    }

    method DispatchUnitAction(unit: string, stop: bool, now: nat, ok: bool) returns (outcome: Outcome)
      modifies `effects
      ensures effects == old(effects) + Dispatched(cfg, if stop then StopUnit(unit) else RestartUnit(unit), now, ok)
      ensures outcome == DispatchOutcome(cfg, if stop then StopUnit(unit) else RestartUnit(unit), ok)
    {
      if cfg.dryRun {
        return Completed(true);
      }
      effects := effects + [SuppressUnit(unit, Until(now, cfg.selfFilterWindowSecs))];
      effects := effects + [ManagerCall(unit, stop)];
      return if ok then Completed(false) else Failed;
    }

    method DispatchTerminateProcess(pid: nat, graceSecs: nat, now: nat, ok: bool) returns (outcome: Outcome)
      modifies `effects
      ensures effects == old(effects) + Dispatched(cfg, TerminateProcess(pid, graceSecs), now, ok)
      ensures outcome == DispatchOutcome(cfg, TerminateProcess(pid, graceSecs), ok)
    {
      var grace := Clamp(graceSecs, 1, Max(cfg.terminateMaxGraceSecs, 1));
      if cfg.dryRun {
        return Completed(true);
      }
      effects := effects + [SuppressPid(pid, Until(now, cfg.selfFilterWindowSecs))];
      effects := effects + [Sigterm(pid)];
      if !ok {
        return Failed;
      }
      effects := effects + [KillLater(pid, grace)];
      return Completed(false);
    }

    method DispatchBlockIp(ip: string, durationSecs: nat, ok: bool) returns (outcome: Outcome)
      modifies `effects
      ensures forall now: nat :: effects == old(effects) + Dispatched(cfg, BlockIp(ip, durationSecs), now, ok)
      ensures outcome == DispatchOutcome(cfg, BlockIp(ip, durationSecs), ok)
    {
      var duration := Clamp(durationSecs, cfg.blockIpMinSecs, Max(cfg.blockIpMaxSecs, cfg.blockIpMinSecs));
      if cfg.dryRun {
        return Completed(true);
      }
      effects := effects + [NftBlock(ip, duration)];
      return if ok then Completed(false) else Failed;
    }

    method DispatchMuteAnomaly(template: nat, muted: Option<string>, scope: MuteScope, now: nat, ok: bool)
        returns (outcome: Outcome)
      modifies `effects
      ensures effects == old(effects) + Dispatched(cfg, MuteAnomaly(template, muted, scope), now, ok)
      ensures outcome == DispatchOutcome(cfg, MuteAnomaly(template, muted, scope), ok)
    {
      if cfg.dryRun {
        return Completed(true);
      }
      var until := match scope
        case OneHour => SatAdd(now, 3_600_000_000)
        case OneDay => SatAdd(now, 86_400_000_000)
        case Permanent => U64_MAX;
      effects := effects + [Mute(template, muted, until)];
      return Completed(false);
    }

    /** One request, from the allow-list to the audit log. */
    method Execute(request: nat, a: Action, now: nat, ok: bool) returns (outcome: Outcome, victim: Option<string>)
      requires limiter.limit == LimitOf(cfg)
      modifies this, limiter
      ensures !Eligible(cfg, a) ==> victim == None
      ensures Eligible(cfg, a) ==> ValidVictim(old(limiter.limits), limiter.limit, RateKey(a), victim)
      ensures limiter.limits == LimitsAfter(cfg, old(limiter.limits), Request(request, a, now, ok, victim))
      ensures effects == old(effects) + EffectsOf(cfg, old(limiter.limits), Request(request, a, now, ok, victim))
      ensures outcome == OutcomeOf(cfg, old(limiter.limits), Request(request, a, now, ok, victim))
      ensures audit == old(audit) + [Audit(request, now, Kind(a), Target(a), outcome)]
    {
      victim := None;
      var unit := UnitOf(a);
      var bad := BadParameterOf(a, cfg.ownPid);
      if Kind(a) !in cfg.allowedKinds {
        outcome := NotAllowed;
      } else if unit.Some? && unit.value !in cfg.allowedUnits {
        outcome := NotAllowed;
      } else if bad.Some? {
        outcome := InvalidParameter(bad.value);
      } else {
        var retry;
        retry, victim := limiter.CheckRateLimit(RateKey(a), now);
        if retry.Some? {
          outcome := RateLimited(retry.value);
        } else {
          match a {
            case RestartUnit(u) => outcome := DispatchUnitAction(u, false, now, ok);
            case StopUnit(u) => outcome := DispatchUnitAction(u, true, now, ok);
            case TerminateProcess(pid, grace) => outcome := DispatchTerminateProcess(pid, grace, now, ok);
            case BlockIp(ip, secs) => outcome := DispatchBlockIp(ip, secs, ok);
            case MuteAnomaly(t, m, scope) => outcome := DispatchMuteAnomaly(t, m, scope, now, ok);
          }
        }
      }
      audit := audit + [Audit(request, now, Kind(a), Target(a), outcome)];
    }
  }

  // ------------------------------------------------ one request, as a value

  datatype Request = Request(id: nat, action: Action, now: nat, ok: bool, victim: Option<string>)

  function LimitOf(cfg: Config): Limit {
    Limit(SatMul(SatMul(cfg.rateLimitWindowMinutes, 60), 1_000_000), cfg.rateLimitMaxActions, 10_000)
  }

  function CallOf(r: Request): Call {
    Call(RateKey(r.action), r.now, r.victim)
  }

  /** The request passes every check, including the rate limit. */
  predicate Admitted(cfg: Config, limits: map<string, Log>, r: Request) {
    Eligible(cfg, r.action) && Admits(limits, LimitOf(cfg), CallOf(r))
  }

  function LimitsAfter(cfg: Config, limits: map<string, Log>, r: Request): map<string, Log> {
    if Eligible(cfg, r.action) then Checked(limits, LimitOf(cfg), CallOf(r)) else limits
  }

  function EffectsOf(cfg: Config, limits: map<string, Log>, r: Request): seq<Effect> {
    if Admitted(cfg, limits, r) then Dispatched(cfg, r.action, r.now, r.ok) else []
  }

  function DispatchOutcome(cfg: Config, a: Action, ok: bool): Outcome {
    if cfg.dryRun then Completed(true) else if a.MuteAnomaly? || ok then Completed(false) else Failed
  }

  function OutcomeOf(cfg: Config, limits: map<string, Log>, r: Request): Outcome {
    if !Listed(cfg, r.action) then NotAllowed
    else if BadParameterOf(r.action, cfg.ownPid).Some? then InvalidParameter(BadParameterOf(r.action, cfg.ownPid).value)
    else if !Admitted(cfg, limits, r) then
      RateLimited(RetryAfter(AttemptsOf(LimitsAfter(cfg, limits, r), RateKey(r.action)), r.now, LimitOf(cfg).windowUs))
    else DispatchOutcome(cfg, r.action, r.ok)
  }

  // ------------------------------------------------ rate keys

  lemma {:induction false} DecimalIsInjective(a: nat, b: nat)
    requires Decimal(a) == Decimal(b)
    ensures a == b
    decreases a
  {
    if a >= 10 && b >= 10 {
      var x, y := Decimal(a), Decimal(b);
      assert x[..|x| - 1] == Decimal(a / 10) && y[..|y| - 1] == Decimal(b / 10);
      DecimalIsInjective(a / 10, b / 10);
      assert x[|x| - 1] == Digit(a % 10) && y[|y| - 1] == Digit(b % 10);
    } else if a >= 10 {
      DecimalLength(a / 10);
    } else if b >= 10 {
      DecimalLength(b / 10);
    }
  }

  lemma {:induction false} DecimalLength(n: nat)
    ensures |Decimal(n)| >= 1
  {
  }

  lemma {:induction false} DecimalHasDigitsOnly(n: nat)
    ensures '@' !in Decimal(n)
  {
    if n >= 10 {
      DecimalHasDigitsOnly(n / 10);
    }
  }

  /** Two actions are of one kind and concern the same thing; waiting times and scopes do not matter. */
  predicate SameTarget(a: Action, b: Action) {
    match (a, b)
    case (RestartUnit(u), RestartUnit(v)) => u == v
    case (StopUnit(u), StopUnit(v)) => u == v
    case (TerminateProcess(p, _), TerminateProcess(q, _)) => p == q
    case (BlockIp(i, _), BlockIp(j, _)) => i == j
    case (MuteAnomaly(t, m, _), MuteAnomaly(s, n, _)) => t == s && m == n
    case _ => false
  }

  lemma SplitAtMark(a: string, b: string, c: string, d: string)
    requires '@' !in a && '@' !in c && a + "@" + b == c + "@" + d
    ensures a == c && b == d
  {
    var x, y := a + "@" + b, c + "@" + d;
    assert x[|a|] == '@' && y[|c|] == '@';
    assert forall i :: 0 <= i < |a| ==> x[i] == a[i];
    assert forall i :: 0 <= i < |c| ==> y[i] == c[i];
    assert |a| == |c|;
    assert a == x[..|a|] == c && b == x[|a| + 1..] == d;
  }

  lemma MarkTellsMuted(a: Action)
    requires a.MuteAnomaly?
    ensures '@' in Target(a) <==> a.muted.Some?
  {
    DecimalHasDigitsOnly(a.template);
    if a.muted.Some? {
      assert Target(a)[|Decimal(a.template)|] == '@';
    }
  }

  lemma TargetDecides(a: Action, b: Action)
    requires Kind(a) == Kind(b) && Target(a) == Target(b)
    ensures SameTarget(a, b)
  {
    KindDecides(a, b);
    match a {
      case TerminateProcess(p, _) => DecimalIsInjective(p, b.pid);
      case MuteAnomaly(t, m, _) =>
        DecimalHasDigitsOnly(t);
        DecimalHasDigitsOnly(b.template);
        MarkTellsMuted(a);
        MarkTellsMuted(b);
        if m.Some? {
          SplitAtMark(Decimal(t), m.value, Decimal(b.template), b.muted.value);
        }
        DecimalIsInjective(t, b.template);
      case _ =>
    }
  }

  lemma KindDecides(a: Action, b: Action)
    requires Kind(a) == Kind(b)
    ensures a.RestartUnit? <==> b.RestartUnit?
    ensures a.StopUnit? <==> b.StopUnit?
    ensures a.TerminateProcess? <==> b.TerminateProcess?
    ensures a.BlockIp? <==> b.BlockIp?
    ensures a.MuteAnomaly? <==> b.MuteAnomaly?
  {
    assert |Kind(a)| == |Kind(b)|;
  }

  /** Requests share a rate limit exactly when they are of one kind and have the same target. */
  lemma RateKeysSeparateTargets(a: Action, b: Action)
    ensures RateKey(a) == RateKey(b) <==> SameTarget(a, b)
  {
    if RateKey(a) == RateKey(b) {
      ColonSplits(Kind(a), Target(a), Kind(b), Target(b));
      TargetDecides(a, b);
    }
  }

  lemma ColonSplits(a: string, b: string, c: string, d: string)
    requires ':' !in a && ':' !in c && a + ":" + b == c + ":" + d
    ensures a == c && b == d
  {
    var x, y := a + ":" + b, c + ":" + d;
    assert x[|a|] == ':' && y[|c|] == ':';
    assert forall i :: 0 <= i < |a| ==> x[i] == a[i];
    assert forall i :: 0 <= i < |c| ==> y[i] == c[i];
    assert |a| == |c|;
    assert a == x[..|a|] == c && b == x[|a| + 1..] == d;
  }

  // ------------------------------------------------ runs

  function LimitsRun(cfg: Config, rs: seq<Request>): map<string, Log> {
    if rs == [] then map[] else LimitsAfter(cfg, LimitsRun(cfg, rs[..|rs| - 1]), rs[|rs| - 1])
  }

  function Trace(cfg: Config, rs: seq<Request>): seq<Effect> {
    if rs == [] then []
    else Trace(cfg, rs[..|rs| - 1]) + EffectsOf(cfg, LimitsRun(cfg, rs[..|rs| - 1]), rs[|rs| - 1])
  }

  /** An effect concerns the target of the action and respects the configured bounds. */
  ghost predicate Concerns(cfg: Config, e: Effect, a: Action) {
    match e
    case SuppressUnit(u, _) => UnitOf(a) == Some(u)
    case ManagerCall(u, stop) => a == if stop then StopUnit(u) else RestartUnit(u)
    case SuppressPid(pid, _) => a.TerminateProcess? && a.pid == pid
    case Sigterm(pid) => a.TerminateProcess? && a.pid == pid && 2 <= pid <= I32_MAX && pid != cfg.ownPid
    case KillLater(pid, g) =>
      a.TerminateProcess? && a.pid == pid && 2 <= pid <= I32_MAX && pid != cfg.ownPid
      && 1 <= g <= Max(cfg.terminateMaxGraceSecs, 1)
    case NftBlock(ip, secs) =>
      a.BlockIp? && a.ip == ip && cfg.blockIpMinSecs <= secs <= Max(cfg.blockIpMinSecs, cfg.blockIpMaxSecs)
    case Mute(t, m, _) =>
      a.MuteAnomaly? && a.template == t && a.muted == m
      && (m.Some? ==> |m.value| <= MAX_MUTE_UNIT_LEN)
  }

  /** Request `k` of the run passed the allow-list, the parameter check and the rate limit, outside a dry run. */
  ghost predicate Justifies(cfg: Config, rs: seq<Request>, k: nat, e: Effect) {
    && k < |rs| && !cfg.dryRun
    && Kind(rs[k].action) in cfg.allowedKinds
    && (UnitOf(rs[k].action).Some? ==> UnitOf(rs[k].action).value in cfg.allowedUnits)
    && Admitted(cfg, LimitsRun(cfg, rs[..k]), rs[k])
    && Concerns(cfg, e, rs[k].action)
  }

  /** Every effect of a run comes from an admitted, allow-listed request for just that target; a dry run has none. */
  lemma {:induction false} EveryEffectIsJustified(cfg: Config, rs: seq<Request>)
    ensures forall e :: e in Trace(cfg, rs) ==> exists k: nat :: Justifies(cfg, rs, k, e)
    ensures cfg.dryRun ==> Trace(cfg, rs) == []
  {
    if rs == [] {
    } else {
      var n := |rs| - 1;
      EveryEffectIsJustified(cfg, rs[..n]);
      forall e | e in Trace(cfg, rs)
        ensures exists k: nat :: Justifies(cfg, rs, k, e)
      {
        if e in Trace(cfg, rs[..n]) {
          var k: nat :| Justifies(cfg, rs[..n], k, e);
          assert rs[..n][..k] == rs[..k];
          assert Justifies(cfg, rs, k, e);
        } else {
          EffectsConcern(cfg, LimitsRun(cfg, rs[..n]), rs[n], e);
          assert Justifies(cfg, rs, n, e);
        }
      }
    }
  }

  lemma EffectsConcern(cfg: Config, limits: map<string, Log>, r: Request, e: Effect)
    requires e in EffectsOf(cfg, limits, r)
    ensures Admitted(cfg, limits, r) && !cfg.dryRun && Concerns(cfg, e, r.action)
  {
  }

  // ------------------------------------------------ interleaved requests

  /**
   Requests pass the rate limit one after the other, but their effects may interleave: a request
   waits for the outside world between its effects. `left` holds what each still has to do.
   */
  datatype Play = Play(trace: seq<Caused>, left: seq<seq<Effect>>)

  /** An effect and the request that caused it. */
  datatype Caused = Caused(request: nat, effect: Effect)

  function Queues(cfg: Config, rs: seq<Request>): (qs: seq<seq<Effect>>)
    ensures |qs| == |rs|
  {
    if rs == [] then []
    else Queues(cfg, rs[..|rs| - 1]) + [EffectsOf(cfg, LimitsRun(cfg, rs[..|rs| - 1]), rs[|rs| - 1])]
  }

  /** Request `i` causes its next effect, if it has one left. */
  function Advance(p: Play, i: nat): Play {
    if i < |p.left| && p.left[i] != [] then
      Play(p.trace + [Caused(i, p.left[i][0])], p.left[i := p.left[i][1..]])
    else p
  }

  /** Any order in which the requests may get their turns. */
  function Played(p: Play, turns: seq<nat>): Play {
    if turns == [] then p else Advance(Played(p, turns[..|turns| - 1]), turns[|turns| - 1])
  }

  /** `p` is what has to come before `e`: the filter for the log lines it provokes, or the signal a kill enforces. */
  predicate Prepares(p: Effect, e: Effect) {
    match e
    case ManagerCall(u, _) => p.SuppressUnit? && p.unit == u
    case Sigterm(pid) => p.SuppressPid? && p.pid == pid
    case KillLater(pid, _) => p == Sigterm(pid)
    case _ => false
  }

  predicate NeedsPreparation(e: Effect) {
    e.ManagerCall? || e.Sigterm? || e.KillLater?
  }

  ghost predicate Prepared(trace: seq<Caused>, i: nat)
    requires i < |trace|
  {
    NeedsPreparation(trace[i].effect) ==>
      exists j :: 0 <= j < i && trace[j].request == trace[i].request && Prepares(trace[j].effect, trace[i].effect)
  }

  /** What a request still has to do is prepared by what it has done or will do first. */
  ghost predicate InOrder(trace: seq<Caused>, r: nat, left: seq<Effect>) {
    forall i :: 0 <= i < |left| && NeedsPreparation(left[i]) ==>
      || (exists j :: 0 <= j < |trace| && trace[j].request == r && Prepares(trace[j].effect, left[i]))
      || (exists j :: 0 <= j < i && Prepares(left[j], left[i]))
  }

  ghost predicate WellPlayed(p: Play) {
    && (forall i :: 0 <= i < |p.trace| ==> Prepared(p.trace, i))
    && forall r :: 0 <= r < |p.left| ==> InOrder(p.trace, r, p.left[r])
  }

  lemma DispatchIsInOrder(cfg: Config, a: Action, now: nat, ok: bool, r: nat)
    ensures InOrder([], r, Dispatched(cfg, a, now, ok))
  {
    var d := Dispatched(cfg, a, now, ok);
    if d != [] && a.TerminateProcess? {
      assert Prepares(d[0], d[1]);
      assert |d| > 2 ==> Prepares(d[1], d[2]);
    } else if |d| == 2 {
      assert Prepares(d[0], d[1]);
    }
  }

  lemma AppendKeepsOrder(trace: seq<Caused>, r: nat, left: seq<Effect>, c: Caused)
    requires InOrder(trace, r, left)
    ensures InOrder(trace + [c], r, left)
  {
    var more := trace + [c];
    forall i | 0 <= i < |left| && NeedsPreparation(left[i]) && !(exists j :: 0 <= j < i && Prepares(left[j], left[i]))
      ensures exists j :: 0 <= j < |more| && more[j].request == r && Prepares(more[j].effect, left[i])
    {
      var j :| 0 <= j < |trace| && trace[j].request == r && Prepares(trace[j].effect, left[i]);
      assert more[j] == trace[j];
    }
  }

  lemma TurnKeepsOrder(trace: seq<Caused>, r: nat, left: seq<Effect>)
    requires left != [] && InOrder(trace, r, left)
    ensures InOrder(trace + [Caused(r, left[0])], r, left[1..])
  {
    var more, rest := trace + [Caused(r, left[0])], left[1..];
    forall i | 0 <= i < |rest| && NeedsPreparation(rest[i]) && !(exists j :: 0 <= j < i && Prepares(rest[j], rest[i]))
      ensures exists j :: 0 <= j < |more| && more[j].request == r && Prepares(more[j].effect, rest[i])
    {
      assert forall j :: 1 <= j < i + 1 ==> left[j] == rest[j - 1];
      if j :| 0 <= j < |trace| && trace[j].request == r && Prepares(trace[j].effect, left[i + 1]) {
        assert more[j] == trace[j];
      } else {
        assert Prepares(left[0], left[i + 1]);
        assert more[|trace|].effect == left[0];
      }
    }
  }

  lemma TurnPrepares(trace: seq<Caused>, r: nat, left: seq<Effect>)
    requires left != [] && InOrder(trace, r, left) && forall i :: 0 <= i < |trace| ==> Prepared(trace, i)
    ensures var more := trace + [Caused(r, left[0])]; forall i :: 0 <= i < |more| ==> Prepared(more, i)
  {
    var more := trace + [Caused(r, left[0])];
    forall i | 0 <= i < |more|
      ensures Prepared(more, i)
    {
      if NeedsPreparation(more[i].effect) {
        if i < |trace| {
          assert Prepared(trace, i);
          var j :| 0 <= j < i && trace[j].request == trace[i].request && Prepares(trace[j].effect, trace[i].effect);
          assert more[j] == trace[j];
        } else {
          var j :| 0 <= j < |trace| && trace[j].request == r && Prepares(trace[j].effect, left[0]);
          assert more[j] == trace[j];
        }
      }
    }
  }

  lemma AdvanceStaysWellPlayed(p: Play, i: nat)
    requires WellPlayed(p)
    ensures WellPlayed(Advance(p, i))
  {
    hide Prepared, InOrder;
    if i < |p.left| && p.left[i] != [] {
      var q := Advance(p, i);
      TurnPrepares(p.trace, i, p.left[i]);
      TurnKeepsOrder(p.trace, i, p.left[i]);
      forall r | 0 <= r < |q.left|
        ensures InOrder(q.trace, r, q.left[r])
      {
        if r != i {
          AppendKeepsOrder(p.trace, r, p.left[r], Caused(i, p.left[i][0]));
        }
      }
    }
  }

  lemma {:induction false} PlaysStayWell(p: Play, turns: seq<nat>)
    requires WellPlayed(p)
    ensures WellPlayed(Played(p, turns))
  {
    if turns == [] {
    } else {
      PlaysStayWell(p, turns[..|turns| - 1]);
      AdvanceStaysWellPlayed(Played(p, turns[..|turns| - 1]), turns[|turns| - 1]);
    }
  }

  lemma {:induction false} QueuesAt(cfg: Config, rs: seq<Request>, r: nat)
    requires r < |rs|
    ensures Queues(cfg, rs)[r] == EffectsOf(cfg, LimitsRun(cfg, rs[..r]), rs[r])
  {
    hide EffectsOf, LimitsAfter, LimitsRun;
    var n := |rs| - 1;
    if r < n {
      QueuesAt(cfg, rs[..n], r);
      assert rs[..n][..r] == rs[..r];
    }
  }

  /**
   However the effects of the requests interleave, each manager call and signal is preceded by the
   filter entry of the same request, and each later kill by its own signal.
   */
  lemma {:induction false} OwnTracesAreFiltered(cfg: Config, rs: seq<Request>, turns: seq<nat>)
    ensures var trace := Played(Play([], Queues(cfg, rs)), turns).trace;
            forall i :: 0 <= i < |trace| ==> Prepared(trace, i)
  {
    var start := Play([], Queues(cfg, rs));
    forall r | 0 <= r < |rs|
      ensures InOrder([], r, start.left[r])
    {
      QueuesAt(cfg, rs, r);
      DispatchIsInOrder(cfg, rs[r].action, rs[r].now, rs[r].ok, r);
    }
    PlaysStayWell(start, turns);
  }

  /** Everything caused and everything left is an effect of its request. */
  ghost predicate FromQueues(p: Play, qs: seq<seq<Effect>>) {
    && |p.left| == |qs|
    && (forall i :: 0 <= i < |p.trace| ==> p.trace[i].request < |qs| && p.trace[i].effect in qs[p.trace[i].request])
    && forall r, i :: 0 <= r < |qs| && 0 <= i < |p.left[r]| ==> p.left[r][i] in qs[r]
  }

  lemma {:induction false} PlaysComeFromQueues(qs: seq<seq<Effect>>, turns: seq<nat>)
    ensures FromQueues(Played(Play([], qs), turns), qs)
  {
    if turns == [] {
    } else {
      PlaysComeFromQueues(qs, turns[..|turns| - 1]);
    }
  }

  /** However the effects interleave, each one is justified by the request that causes it. */
  lemma {:induction false} InterleavedEffectsAreJustified(cfg: Config, rs: seq<Request>, turns: seq<nat>)
    ensures var trace := Played(Play([], Queues(cfg, rs)), turns).trace;
            forall i :: 0 <= i < |trace| ==> Justifies(cfg, rs, trace[i].request, trace[i].effect)
  {
    var trace := Played(Play([], Queues(cfg, rs)), turns).trace;
    PlaysComeFromQueues(Queues(cfg, rs), turns);
    forall i | 0 <= i < |trace|
      ensures Justifies(cfg, rs, trace[i].request, trace[i].effect)
    {
      var r := trace[i].request;
      QueuesAt(cfg, rs, r);
      EffectsConcern(cfg, LimitsRun(cfg, rs[..r]), rs[r], trace[i].effect);
    }
  }

  // ------------------------------------------------ how often a request gets through

  /** The calls that reach the rate limit. */
  ghost function Calls(cfg: Config, rs: seq<Request>): seq<Call> {
    if rs == [] then []
    else Calls(cfg, rs[..|rs| - 1]) + if Eligible(cfg, rs[|rs| - 1].action) then [CallOf(rs[|rs| - 1])] else []
  }

  /** Requests that are refused earlier neither use up nor change a rate limit. */
  lemma {:induction false} OnlyEligibleRequestsCount(cfg: Config, rs: seq<Request>)
    ensures LimitsRun(cfg, rs) == Run(LimitOf(cfg), Calls(cfg, rs))
  {
    if rs == [] {
    } else {
      var n := |rs| - 1;
      OnlyEligibleRequestsCount(cfg, rs[..n]);
      if Eligible(cfg, rs[n].action) {
        assert Calls(cfg, rs)[..|Calls(cfg, rs)| - 1] == Calls(cfg, rs[..n]);
      } else {
        assert Calls(cfg, rs) == Calls(cfg, rs[..n]);
      }
    }
  }

  /** Times at which requests for the target of `a` were let through. */
  ghost function Executions(cfg: Config, rs: seq<Request>, a: Action): Log {
    if rs == [] then []
    else
      var before, r := rs[..|rs| - 1], rs[|rs| - 1];
      Executions(cfg, before, a)
      + if SameTarget(a, r.action) && Admitted(cfg, LimitsRun(cfg, before), r) then [r.now] else []
  }

  lemma {:induction false} ExecutionsAreAdmissions(cfg: Config, rs: seq<Request>, a: Action)
    ensures Executions(cfg, rs, a) == Admissions(LimitOf(cfg), Calls(cfg, rs), RateKey(a))
  {
    if rs == [] {
    } else {
      ExecutionsAreAdmissions(cfg, rs[..|rs| - 1], a);
      NextExecution(cfg, rs, a);
    }
  }

  lemma {:induction false} NextExecution(cfg: Config, rs: seq<Request>, a: Action)
    requires rs != []
    requires Executions(cfg, rs[..|rs| - 1], a) == Admissions(LimitOf(cfg), Calls(cfg, rs[..|rs| - 1]), RateKey(a))
    ensures Executions(cfg, rs, a) == Admissions(LimitOf(cfg), Calls(cfg, rs), RateKey(a))
  {
    var before, r, key := rs[..|rs| - 1], rs[|rs| - 1], RateKey(a);
    var calls, limits := Calls(cfg, before), LimitsRun(cfg, before);
    assert limits == Run(LimitOf(cfg), calls) by {
      OnlyEligibleRequestsCount(cfg, before);
    }
    if Eligible(cfg, r.action) {
      ExecutedWhenAdmitted(cfg, limits, r, a);
      AdmissionsUnfold(LimitOf(cfg), calls, CallOf(r), key);
    } else {
      assert Calls(cfg, rs) == calls;
    }
  }

  lemma ExecutedWhenAdmitted(cfg: Config, limits: map<string, Log>, r: Request, a: Action)
    requires Eligible(cfg, r.action)
    ensures SameTarget(a, r.action) && Admitted(cfg, limits, r)
            <==> CallOf(r).key == RateKey(a) && Admits(limits, LimitOf(cfg), CallOf(r))
  {
    RateKeysSeparateTargets(a, r.action);
  }

  lemma {:induction false} AdmissionsUnfold(l: Limit, calls: seq<Call>, c: Call, key: string)
    ensures Admissions(l, calls + [c], key)
            == Admissions(l, calls, key) + if c.key == key && Admits(Run(l, calls), l, c) then [c.now] else []
  {
    assert (calls + [c])[..|calls|] == calls;
  }

  /**
   Over a whole run, no kind and target is executed more than the configured number of times in
   any span shorter than the window.
   */
  lemma {:induction false} ExecutionsAreLimited(cfg: Config, rs: seq<Request>, a: Action, first: nat, last: nat)
    requires cfg.rateLimitMaxActions < U32_RANGE
    requires var calls := Calls(cfg, rs);
             ValidRun(LimitOf(cfg), calls) && ClockForward(calls) && KeysToSpare(LimitOf(cfg), calls)
    requires first <= last < |Executions(cfg, rs, a)|
    requires SatSub(Executions(cfg, rs, a)[last], Executions(cfg, rs, a)[first]) < LimitOf(cfg).windowUs
    ensures last - first + 1 <= cfg.rateLimitMaxActions
  {
    ExecutionsAreAdmissions(cfg, rs, a);
    RateLimitHolds(LimitOf(cfg), Calls(cfg, rs), RateKey(a), first, last);
  }

  lemma {:induction false} CallsAppend(cfg: Config, rs: seq<Request>, more: seq<Request>)
    ensures Calls(cfg, rs + more) == Calls(cfg, rs) + Calls(cfg, more)
  {
    if more == [] {
      assert rs + more == rs;
    } else {
      var n := |more| - 1;
      assert (rs + more)[..|rs + more| - 1] == rs + more[..n];
      CallsAppend(cfg, rs, more[..n]);
    }
  }

  /** Further requests for the target of `a` at time `now` that get through more often than configured. */
  ghost predicate RequestsOverrun(cfg: Config, rs: seq<Request>, a: Action, now: nat, more: seq<Request>) {
    && ValidRun(LimitOf(cfg), Calls(cfg, rs + more))
    && (forall k :: 0 <= k < |more| ==> SameTarget(a, more[k].action) && more[k].now == now)
    && |Retained(Executions(cfg, rs + more, a), now, LimitOf(cfg).windowUs)| > cfg.rateLimitMaxActions
  }

  lemma {:induction false} CallsForTarget(cfg: Config, more: seq<Request>, a: Action, now: nat)
    requires forall k :: 0 <= k < |more| ==> SameTarget(a, more[k].action) && more[k].now == now
    ensures forall k :: 0 <= k < |Calls(cfg, more)| ==>
              Calls(cfg, more)[k].key == RateKey(a) && Calls(cfg, more)[k].now == now
  {
    if more == [] {
    } else {
      var n := |more| - 1;
      CallsForTarget(cfg, more[..n], a, now);
      RateKeysSeparateTargets(a, more[n].action);
    }
  }

  /** Requests for `a` itself that make the given calls. */
  lemma {:induction false} RequestsFor(cfg: Config, a: Action, now: nat, cs: seq<Call>) returns (more: seq<Request>)
    requires Eligible(cfg, a) && forall k :: 0 <= k < |cs| ==> cs[k].key == RateKey(a) && cs[k].now == now
    ensures Calls(cfg, more) == cs
    ensures forall k :: 0 <= k < |more| ==> more[k].action == a && more[k].now == now
  {
    if cs == [] {
      more := [];
    } else {
      var n := |cs| - 1;
      var fewer := RequestsFor(cfg, a, now, cs[..n]);
      more := fewer + [Request(0, a, now, true, cs[n].victim)];
      assert more[..|more| - 1] == fewer;
    }
  }

  /**
   For any clock and any evictions: further requests for a target can get through more often than
   configured if and only if an execution that is still recent has been forgotten.
   */
  lemma {:induction false} ExecutionsOverrunExactlyWhen(cfg: Config, rs: seq<Request>, a: Action, now: nat)
    requires ValidRun(LimitOf(cfg), Calls(cfg, rs)) && cfg.rateLimitMaxActions < U32_RANGE && Eligible(cfg, a)
    ensures RecentForgotten(LimitOf(cfg), Calls(cfg, rs), RateKey(a), now)
            <==> exists more: seq<Request> :: RequestsOverrun(cfg, rs, a, now, more)
  {
    hide RecentForgotten, Executions, Calls, Admissions, ValidRun, Retained, RateKey, Run, SatMul;
    var l, calls, key := LimitOf(cfg), Calls(cfg, rs), RateKey(a);
    LimitBreaksExactlyWhen(l, calls, key, now);
    if cs: seq<Call> :| Overruns(l, calls, key, now, cs) {
      var more := RequestsFor(cfg, a, now, cs);
      CallsAppend(cfg, rs, more);
      ExecutionsAreAdmissions(cfg, rs + more, a);
      assert RequestsOverrun(cfg, rs, a, now, more);
    }
    if more: seq<Request> :| RequestsOverrun(cfg, rs, a, now, more) {
      CallsForTarget(cfg, more, a, now);
      CallsAppend(cfg, rs, more);
      ExecutionsAreAdmissions(cfg, rs + more, a);
      assert Overruns(l, calls, key, now, Calls(cfg, more));
    }
  }
}
