/**
 Hysteresis, learning phase, cooldown and escalation over a whole run of scored events: how many
 alarms a template can raise, what becomes of those held back, and where its level comes from.
 */
module Damping {
  import opened Common
  import opened Engine

  datatype Setup = Setup(cfg: Config, skipped: bool)

  function Run(p: Setup, xs: seq<Scored>): Reporting {
    if xs == [] then Idle(p.skipped)
    else Decided(Noted(Run(p, xs[..|xs| - 1]), xs[|xs| - 1].input.now), p.cfg, xs[|xs| - 1])
  }

  /** The reporting state of a template. */
  function Of(p: Setup, xs: seq<Scored>, id: nat): TemplateState {
    StateOf(Run(p, xs).states, id)
  }

  function LastNoted(p: Setup, xs: seq<Scored>): Reporting
    requires xs != []
  {
    Noted(Run(p, xs[..|xs| - 1]), xs[|xs| - 1].input.now)
  }

  function LastScore(xs: seq<Scored>): real
    requires xs != []
  {
    xs[|xs| - 1].breakdown.combined
  }

  /** Level of the last event. */
  function LastLevel(p: Setup, xs: seq<Scored>): Level
    requires xs != []
  {
    LevelOf(LastNoted(p, xs), p.cfg, xs[|xs| - 1])
  }

  /** What was reported on the last event. */
  function LastReport(p: Setup, xs: seq<Scored>): Option<Anomaly>
    requires xs != []
  {
    Reported(LastNoted(p, xs), p.cfg, xs[|xs| - 1])
  }

  /** One event in terms of the reporting state of one template. */
  lemma LastStep(p: Setup, xs: seq<Scored>, id: nat)
    requires xs != []
    ensures
      var n := |xs| - 1;
      var e, before, level := xs[n].input, Of(p, xs[..n], id), LastLevel(p, xs);
      var v := VerdictOf(LastNoted(p, xs), p.cfg, xs[n]);
      && (e.id != id ==> Of(p, xs, id) == before)
      && (e.id == id ==>
            && Of(p, xs, id) == Damped(before.(level := level), v, e.now, level)
            && level == NextLevel(p.cfg, before.level, LastScore(xs)))
      && (LastReport(p, xs).Some? <==> v == Emit)
  {
  }

  lemma {:induction false} ClockStartsWithFirstEvent(p: Setup, xs: seq<Scored>)
    ensures Run(p, xs).firstEvent == if xs == [] then None else Some(xs[0].input.now)
    ensures Run(p, xs).skipped == p.skipped
  {
    if xs == [] {
    } else {
      ClockStartsWithFirstEvent(p, xs[..|xs| - 1]);
    }
  }

  // ------------------------------------------------ alarms

  /** The reports about one template. */
  function Alarms(p: Setup, xs: seq<Scored>, id: nat): seq<Anomaly> {
    if xs == [] then []
    else
      Alarms(p, xs[..|xs| - 1], id)
      + if xs[|xs| - 1].input.id == id && LastReport(p, xs).Some? then [LastReport(p, xs).value] else []
  }

  ghost predicate Remembers(t: TemplateState, alarms: seq<Anomaly>) {
    if alarms == [] then t.lastEmitted == None
    else t.lastEmitted == Some(alarms[|alarms| - 1].now) && t.lastLevel == alarms[|alarms| - 1].level
  }

  /** The engine remembers the latest report about every template. */
  lemma {:induction false} LastAlarmIsRemembered(p: Setup, xs: seq<Scored>, id: nat)
    ensures Remembers(Of(p, xs, id), Alarms(p, xs, id))
  {
    if xs == [] {
    } else {
      LastAlarmIsRemembered(p, xs[..|xs| - 1], id);
      LastStep(p, xs, id);
    }
  }

  /** Learning is over at the given time. */
  predicate LearningDone(p: Setup, first: nat, now: nat) {
    p.skipped || SatSub(now, first) >= LearningUs(p.cfg)
  }

  /** A report of some level may follow the earlier ones. */
  predicate MayFollow(cfg: Config, alarms: seq<Anomaly>, level: Level, now: nat) {
    alarms != [] ==>
      || Rank(level) > Rank(alarms[|alarms| - 1].level)
      || SatSub(now, alarms[|alarms| - 1].now) >= CooldownUs(cfg)
  }

  /** An event is reported exactly when it is anomalous, learning is over, and it may follow the last report. */
  lemma {:induction false} ReportedExactlyWhen(p: Setup, xs: seq<Scored>)
    requires xs != []
    ensures
      var e := xs[|xs| - 1].input;
      LastReport(p, xs).Some? <==>
        && LastLevel(p, xs) != Normal
        && LearningDone(p, xs[0].input.now, e.now)
        && MayFollow(p.cfg, Alarms(p, xs[..|xs| - 1], e.id), LastLevel(p, xs), e.now)
  {
    var n := |xs| - 1;
    LastAlarmIsRemembered(p, xs[..n], xs[n].input.id);
    ClockStartsWithFirstEvent(p, xs[..n]);
    LastStep(p, xs, xs[n].input.id);
  }

  /** The report carries the level and the time of its event. */
  lemma ReportDescribesEvent(p: Setup, xs: seq<Scored>)
    requires xs != [] && LastReport(p, xs).Some?
    ensures var r, e := LastReport(p, xs).value, xs[|xs| - 1].input;
            r.now == e.now && r.id == e.id && r.unit == e.unit && r.level == LastLevel(p, xs)
            && r.breakdown == xs[|xs| - 1].breakdown && r.suppressed == Of(p, xs[..|xs| - 1], e.id).pending
  {
  }

  /** Every report is anomalous and either comes a full cooldown after the one before or is more severe. */
  ghost predicate WellSpaced(cfg: Config, alarms: seq<Anomaly>) {
    && (forall k :: 0 <= k < |alarms| ==> alarms[k].level != Normal)
    && forall k :: 1 <= k < |alarms| ==>
         Rank(alarms[k].level) > Rank(alarms[k - 1].level)
             || SatSub(alarms[k].now, alarms[k - 1].now) >= CooldownUs(cfg)
  }

  lemma {:induction false} AlarmsAreSpaced(p: Setup, xs: seq<Scored>, id: nat)
    ensures WellSpaced(p.cfg, Alarms(p, xs, id))
  {
    if xs == [] {
    } else {
      var n := |xs| - 1;
      AlarmsAreSpaced(p, xs[..n], id);
      if xs[n].input.id == id && LastReport(p, xs).Some? {
        ReportedExactlyWhen(p, xs);
        ReportDescribesEvent(p, xs);
      } else {
        assert Alarms(p, xs, id) == Alarms(p, xs[..n], id);
      }
    }
  }

  lemma {:induction false} SeverityGrows(cfg: Config, alarms: seq<Anomaly>, first: nat, last: nat)
    requires WellSpaced(cfg, alarms) && first <= last < |alarms|
    requires forall k :: first < k <= last ==> SatSub(alarms[k].now, alarms[k - 1].now) < CooldownUs(cfg)
    ensures Rank(alarms[last].level) >= Rank(alarms[first].level) + (last - first)
  {
    if first < last {
      SeverityGrows(cfg, alarms, first, last - 1);
    }
  }

  /** A series of reports that follow each other faster than the cooldown has at most three members. */
  lemma {:induction false} FloodIsBounded(p: Setup, xs: seq<Scored>, id: nat, first: nat, last: nat)
    requires first <= last < |Alarms(p, xs, id)|
    requires var a := Alarms(p, xs, id);
             forall k :: first < k <= last ==> SatSub(a[k].now, a[k - 1].now) < CooldownUs(p.cfg)
    ensures last - first + 1 <= 3
  {
    AlarmsAreSpaced(p, xs, id);
    SeverityGrows(p.cfg, Alarms(p, xs, id), first, last);
  }

  ghost predicate ClockForward(xs: seq<Scored>) {
    forall i, j :: 0 <= i < j < |xs| ==> xs[i].input.now <= xs[j].input.now
  }

  ghost predicate InOrder(alarms: seq<Anomaly>) {
    forall i, j :: 0 <= i < j < |alarms| ==> alarms[i].now <= alarms[j].now
  }

  lemma {:induction false} AlarmsAreInOrder(p: Setup, xs: seq<Scored>, id: nat)
    requires ClockForward(xs)
    ensures InOrder(Alarms(p, xs, id))
    ensures forall k :: 0 <= k < |Alarms(p, xs, id)| ==> xs != [] && Alarms(p, xs, id)[k].now <= xs[|xs| - 1].input.now
  {
    if xs == [] {
    } else {
      var n := |xs| - 1;
      AlarmsAreInOrder(p, xs[..n], id);
      if n > 0 {
        assert xs[n - 1].input.now <= xs[n].input.now;
      }
      if LastReport(p, xs).Some? {
        ReportDescribesEvent(p, xs);
      }
    }
  }

  /** With a clock that does not run backwards, any span shorter than the cooldown holds at most three reports. */
  lemma {:induction false} SpanHoldsAtMostThree(p: Setup, xs: seq<Scored>, id: nat, first: nat, last: nat)
    requires ClockForward(xs) && first <= last < |Alarms(p, xs, id)|
    requires Alarms(p, xs, id)[last].now - Alarms(p, xs, id)[first].now < CooldownUs(p.cfg)
    ensures last - first + 1 <= 3
  {
    AlarmsAreInOrder(p, xs, id);
    var a := Alarms(p, xs, id);
    forall k | first < k <= last
      ensures SatSub(a[k].now, a[k - 1].now) < CooldownUs(p.cfg)
    {
      assert a[first].now <= a[k - 1].now && a[k].now <= a[last].now;
    }
    FloodIsBounded(p, xs, id, first, last);
  }

  // ------------------------------------------------ bookkeeping

  ghost function PendingTotal(states: map<nat, TemplateState>): nat
    decreases states.Keys
  {
    if states == map[] then 0
    else
      var id :| id in states;
      states[id].pending + PendingTotal(states - {id})
  }

  lemma {:induction false} PendingSplits(states: map<nat, TemplateState>, id: nat)
    requires id in states
    ensures PendingTotal(states) == states[id].pending + PendingTotal(states - {id})
    decreases states.Keys
  {
    var other :| other in states && PendingTotal(states) == states[other].pending + PendingTotal(states - {other});
    if other != id {
      PendingSplits(states - {other}, id);
      PendingSplits(states - {id}, other);
      assert states - {other} - {id} == states - {id} - {other};
    }
  }

  lemma PendingAfterUpdate(states: map<nat, TemplateState>, id: nat, t: TemplateState)
    ensures PendingTotal(states[id := t]) == PendingTotal(states) - StateOf(states, id).pending + t.pending
    ensures PendingTotal(states) >= StateOf(states, id).pending
  {
    PendingSplits(states[id := t], id);
    if id in states {
      PendingSplits(states, id);
      assert states[id := t] - {id} == states - {id};
    } else {
      assert states[id := t] - {id} == states;
    }
  }

  /** What all reports of the run together say was held back. */
  function ReportedSuppressions(p: Setup, xs: seq<Scored>): nat {
    if xs == [] then 0
    else
      ReportedSuppressions(p, xs[..|xs| - 1])
      + if LastReport(p, xs).Some? then LastReport(p, xs).value.suppressed else 0
  }

  /** Every event held back by the cooldown is announced by a later report or still pending. */
  lemma {:induction false} SuppressionsAreReported(p: Setup, xs: seq<Scored>)
    ensures Run(p, xs).stats.suppressed == ReportedSuppressions(p, xs) + PendingTotal(Run(p, xs).states)
  {
    if xs == [] {
    } else {
      var n := |xs| - 1;
      SuppressionsAreReported(p, xs[..n]);
      DecisionMovesPending(LastNoted(p, xs), p.cfg, xs[n]);
    }
  }

  lemma DecisionMovesPending(r: Reporting, cfg: Config, x: Scored)
    ensures var a, next := Reported(r, cfg, x), Decided(r, cfg, x);
            next.stats.suppressed + PendingTotal(r.states)
            == r.stats.suppressed + PendingTotal(next.states) + if a.Some? then a.value.suppressed else 0
  {
    var level, v := LevelOf(r, cfg, x), VerdictOf(r, cfg, x);
    var before := StateOf(r.states, x.input.id);
    PendingAfterUpdate(r.states, x.input.id, Damped(before.(level := level), v, x.input.now, level));
  }

  /** Number of events that were nothing unusual. */
  function QuietEvents(p: Setup, xs: seq<Scored>): nat {
    if xs == [] then 0
    else QuietEvents(p, xs[..|xs| - 1]) + if LastLevel(p, xs) == Normal then 1 else 0
  }

  function Reports(p: Setup, xs: seq<Scored>): seq<Anomaly> {
    if xs == [] then []
    else Reports(p, xs[..|xs| - 1]) + if LastReport(p, xs).Some? then [LastReport(p, xs).value] else []
  }

  /** Every event is either unusual in no way, reported, or counted as held back for one of two reasons. */
  lemma {:induction false} EventsAreAccountedFor(p: Setup, xs: seq<Scored>)
    ensures var s := Run(p, xs).stats;
            && s.processed == |xs| == QuietEvents(p, xs) + s.emitted + s.suppressed + s.suppressedLearning
            && s.emitted == |Reports(p, xs)|
  {
    if xs == [] {
    } else {
      EventsAreAccountedFor(p, xs[..|xs| - 1]);
    }
  }

  // ------------------------------------------------ levels

  /** The template reached the level at event `j` with a full-threshold score and has held it since. */
  ghost predicate HeldSince(p: Setup, xs: seq<Scored>, id: nat, l: Level, j: nat)
    requires l != Normal
  {
    && j < |xs| && xs[j].input.id == id && LastScore(xs[..j + 1]) >= Threshold(p.cfg, l)
    && LastLevel(p, xs[..j + 1]) == l
    && forall k :: j < k < |xs| && xs[k].input.id == id ==>
         LastLevel(p, xs[..k + 1]) == l && LastScore(xs[..k + 1]) >= ExitThreshold(p.cfg, l)
  }

  lemma HoldExtends(p: Setup, xs: seq<Scored>, id: nat, l: Level, j: nat)
    requires xs != [] && l != Normal && HeldSince(p, xs[..|xs| - 1], id, l, j)
    requires xs[|xs| - 1].input.id == id ==>
               LastLevel(p, xs) == l && LastScore(xs) >= ExitThreshold(p.cfg, l)
    ensures HeldSince(p, xs, id, l, j)
  {
    var n := |xs| - 1;
    assert xs[..n][..j + 1] == xs[..j + 1];
    forall k | j < k < |xs| && xs[k].input.id == id
      ensures LastLevel(p, xs[..k + 1]) == l && LastScore(xs[..k + 1]) >= ExitThreshold(p.cfg, l)
    {
      if k < n {
        assert xs[..n][k] == xs[k];
        assert xs[..n][..k + 1] == xs[..k + 1];
      } else {
        assert xs[..k + 1] == xs;
      }
    }
  }

  /**
   Every level was entered by a score at its full threshold, and every score of the template since
   then reached the lowered threshold.
   */
  lemma {:induction false} LevelWasEntered(p: Setup, xs: seq<Scored>, id: nat)
    ensures var l := Of(p, xs, id).level; l != Normal ==> exists j: nat :: HeldSince(p, xs, id, l, j)
  {
    if xs != [] && Of(p, xs, id).level != Normal {
      var n, l := |xs| - 1, Of(p, xs, id).level;
      LevelWasEntered(p, xs[..n], id);
      LastStep(p, xs, id);
      if xs[n].input.id == id && LastScore(xs) >= Threshold(p.cfg, l) && RawLevel(p.cfg, LastScore(xs)) == l {
        assert xs[..n + 1] == xs;
        assert HeldSince(p, xs, id, l, n);
      } else {
        RaisedOrHeld(p.cfg, Of(p, xs[..n], id).level, LastScore(xs));
        var j: nat :| HeldSince(p, xs[..n], id, l, j);
        HoldExtends(p, xs, id, l, j);
      }
    }
  }

  lemma RaisedOrHeld(cfg: Config, previous: Level, score: real)
    ensures var l := NextLevel(cfg, previous, score);
            l != Normal ==>
              || (RawLevel(cfg, score) == l && score >= Threshold(cfg, l))
              || (previous == l && score >= ExitThreshold(cfg, l))
  {
  }

  /** A higher score never leads to a lower level. */
  lemma LevelGrowsWithScore(cfg: Config, previous: Level, low: real, high: real)
    requires low <= high
    ensures Rank(NextLevel(cfg, previous, low)) <= Rank(NextLevel(cfg, previous, high))
  {
  }

  /**
   Hysteresis holds only the level itself: a template that has been critical falls below one that
   has only been at `warn` exactly for scores between the two lowered thresholds and below the
   full ones.
   */
  lemma CriticalForgetsWarn(cfg: Config, score: real)
    ensures Rank(NextLevel(cfg, Critical, score)) < Rank(NextLevel(cfg, Warn, score))
            <==> && ExitThreshold(cfg, Warn) <= score < ExitThreshold(cfg, Critical)
                 && score < cfg.warnThreshold && score < cfg.criticalThreshold
  {
  }

  /**
   The level is at least as severe as each of `info`, `warn` and `critical` exactly if one of the two
   ways leads there.
   */
  ghost predicate Reached(c: Config, before: Level, score: real, level: Level) {
    var exit := Clamp01(c.exitFactor);
    var critical := score >= c.criticalThreshold || (before == Critical && score >= c.criticalThreshold * exit);
    var warn := score >= c.warnThreshold || (before == Warn && score >= c.warnThreshold * exit);
    var info := score >= c.infoThreshold || (before == Info && score >= c.infoThreshold * exit);
    && (level == Critical <==> critical)
    && (level == Critical || level == Warn <==> critical || warn)
    && (level != Normal <==> critical || warn || info)
  }

  lemma NextLevelReached(cfg: Config, previous: Level, score: real)
    ensures Reached(cfg, previous, score, NextLevel(cfg, previous, score))
  {
    hide Clamp01;
  }

  /**
   The level of an event, for every level at once: it is at least as severe as `info`, `warn` or
   `critical` exactly if the score reaches the threshold of that or a more severe level, or the
   template was at such a level and the score reaches its lowered threshold.
   */
  lemma {:induction false} LevelIsHighestReached(p: Setup, xs: seq<Scored>)
    requires xs != []
    ensures var n := |xs| - 1;
            Reached(p.cfg, Of(p, xs[..n], xs[n].input.id).level, LastScore(xs), LastLevel(p, xs))
  {
    var n := |xs| - 1;
    LastStep(p, xs, xs[n].input.id);
    hide Reached, NextLevel, Run;
    NextLevelReached(p.cfg, Of(p, xs[..n], xs[n].input.id).level, LastScore(xs));
  }

  /** A template without an event yet is at no level. */
  lemma {:induction false} LevelStartsNormal(p: Setup, xs: seq<Scored>, id: nat)
    requires forall k :: 0 <= k < |xs| ==> xs[k].input.id != id
    ensures Of(p, xs, id) == FRESH
  {
    if xs == [] {
    } else {
      LevelStartsNormal(p, xs[..|xs| - 1], id);
      LastStep(p, xs, id);
    }
  }

  /** Number of anomalous events before the learning phase is over. */
  function LearningEvents(p: Setup, xs: seq<Scored>): nat {
    if xs == [] then 0
    else
      LearningEvents(p, xs[..|xs| - 1])
      + if LastLevel(p, xs) != Normal && !LearningDone(p, xs[0].input.now, xs[|xs| - 1].input.now) then 1 else 0
  }

  /** Anomalous events of the learning phase are counted as such, whatever the cooldown says. */
  lemma {:induction false} LearningIsCounted(p: Setup, xs: seq<Scored>)
    ensures Run(p, xs).stats.suppressedLearning == LearningEvents(p, xs)
  {
    if xs == [] {
    } else {
      var n := |xs| - 1;
      LearningIsCounted(p, xs[..n]);
      ClockStartsWithFirstEvent(p, xs[..n]);
      assert n > 0 ==> xs[..n][0] == xs[0];
    }
  }
}
