/**
 * The rule engine and its alerts agree: a timer is active exactly while its alert is open,
 * even when rules are edited between samples.
 */
module RuleAlerts {
  import opened Common
  import opened Alerts
  import opened RuleEngine

  function DedupOf(key: Key): DedupKey { Dedup(key.machine, RuleThreshold, RuleSeries(key.rule, key.dimension)) }

  /** Some open alert belongs to the timer. */
  predicate HasOpen(alerts: Alerts.Db, key: Key) {
    FindOpen(alerts.alerts, key.machine.customer, DedupOf(key)).Some?
  }

  ghost predicate OpenImpliesActive(db: EngineDb) {
    forall key :: HasOpen(db.alerts, key) ==> Lookup(db.states, key).active
  }

  ghost predicate Agree(db: EngineDb) {
    forall key :: HasOpen(db.alerts, key) <==> Lookup(db.states, key).active
  }

  lemma RaisedOpensOnlyItsKey(alerts: Alerts.Db, r: Raise, now: int, key: Key)
    ensures HasOpen(Raised(alerts, r, now), key)
       <==> HasOpen(alerts, key)
            || (r.machine.customer == key.machine.customer && Dedup(r.machine, r.kind, r.source) == DedupOf(key))
  {
    var after := Raised(alerts, r, now).alerts;
    var target := Target(alerts.alerts, r);
    var pk := if target.Some? then target.value else |alerts.alerts|;
    assert OpenFor(after[pk], r.machine.customer, Dedup(r.machine, r.kind, r.source));
    assert forall i :: 0 <= i < |alerts.alerts| ==>
      OpenFor(after[i], key.machine.customer, DedupOf(key))
          == OpenFor(alerts.alerts[i], key.machine.customer, DedupOf(key));
  }

  lemma ResolvedClosesOnlyItsKey(alerts: Alerts.Db, machine: Machine, kind: Kind, source: Source, reason: string,
                                 now: int, key: Key)
    requires UniqueOpen(alerts.alerts)
    ensures HasOpen(ResolvedOpen(alerts, machine, kind, source, reason, now), key)
       <==> HasOpen(alerts, key)
            && !(machine.customer == key.machine.customer && Dedup(machine, kind, source) == DedupOf(key))
  {
    var after := ResolvedOpen(alerts, machine, kind, source, reason, now).alerts;
    var found := FindOpen(alerts.alerts, machine.customer, Dedup(machine, kind, source));
    if HasOpen(alerts, key) {
      var pk := FindOpen(alerts.alerts, key.machine.customer, DedupOf(key)).value;
      if found.Some? && found.value == pk {
        assert forall i :: 0 <= i < |after| ==> !OpenFor(after[i], key.machine.customer, DedupOf(key));
      } else {
        assert OpenFor(after[pk], key.machine.customer, DedupOf(key));
      }
    }
  }

  /** Evaluating a rule turns its own timer and its own alert together, and no others. */
  lemma RuleTurnsBoth(rule: Rule, m: Metric, db: EngineDb, now: int, key: Key)
    requires UniqueOpen(db.alerts.alerts) && m.value.Some?
    ensures var after := Evaluated1(rule, m, db, now);
            && UniqueOpen(after.alerts.alerts)
            && (key != KeyOf(rule, m) ==>
                  HasOpen(after.alerts, key) == HasOpen(db.alerts, key)
                  && Lookup(after.states, key) == Lookup(db.states, key))
            && (OpenImpliesActive(db) ==>
                  (HasOpen(after.alerts, KeyOf(rule, m)) ==> Lookup(after.states, KeyOf(rule, m)).active))
            && (Agree(db) ==>
                  (HasOpen(after.alerts, KeyOf(rule, m)) <==> Lookup(after.states, KeyOf(rule, m)).active))
  {
    var own := KeyOf(rule, m);
    var st := Lookup(db.states, own);
    assert HasOpen(db.alerts, own) || !HasOpen(db.alerts, own);
    if Fires(rule, st, m.timestamp, m.value.value) {
      RaisedOpensOnlyItsKey(db.alerts, RaiseFor(rule, m), now, own);
      RaisedOpensOnlyItsKey(db.alerts, RaiseFor(rule, m), now, key);
      RaisedKeepsUnique(db.alerts, RaiseFor(rule, m), now);
    } else if Clears(rule, st, m.timestamp, m.value.value) {
      ResolvedClosesOnlyItsKey(db.alerts, m.machine, RuleThreshold, SourceOf(rule, m), "condition_cleared", now, own);
      ResolvedClosesOnlyItsKey(db.alerts, m.machine, RuleThreshold, SourceOf(rule, m), "condition_cleared", now, key);
      ApplyKeepsUnique(db.alerts, Event(now, Resolve(m.machine, RuleThreshold, SourceOf(rule, m),
          "condition_cleared")));
    }
  }

  lemma {:induction false} EvaluationKeepsAgreement(rules: seq<Rule>, m: Metric, db: EngineDb, now: int)
    requires UniqueOpen(db.alerts.alerts)
    ensures var after := Evaluated(rules, m, db, now);
            && UniqueOpen(after.alerts.alerts)
            && (OpenImpliesActive(db) ==> OpenImpliesActive(after))
            && (Agree(db) ==> Agree(after))
  {
    if m.value.Some? && rules != [] {
      var init, last := rules[..|rules| - 1], rules[|rules| - 1];
      EvaluationKeepsAgreement(init, m, db, now);
      if Applies(last, m) {
        var before := Evaluated(init, m, db, now);
        RuleTurnsBoth(last, m, before, now, KeyOf(last, m));
        forall key | key != KeyOf(last, m)
          ensures var after := Evaluated1(last, m, before, now);
                  HasOpen(after.alerts, key) == HasOpen(before.alerts, key)
                  && Lookup(after.states, key) == Lookup(before.states, key)
        {
          RuleTurnsBoth(last, m, before, now, key);
        }
      }
    }
  }

  /**
   * One step of a deployment: a sample is evaluated with the rules as they are then, or
   * something else changes the alerts.
   */
  datatype Step = Evaluate(rules: seq<Rule>, metric: Metric, now: int) | Other(event: Alerts.Event)

  function Next(db: EngineDb, step: Step): EngineDb {
    match step
    case Evaluate(rules, metric, now) => Evaluated(rules, metric, db, now)
    case Other(event) => db.(alerts := Apply(db.alerts, event))
  }

  function Run(db: EngineDb, steps: seq<Step>): EngineDb {
    if steps == [] then db else Next(Run(db, steps[..|steps| - 1]), steps[|steps| - 1])
  }

  const EMPTY := EngineDb(map[], Alerts.Db([], []))

  /** Alerts of other kinds, such as offline machines and anomalies. */
  predicate Foreign(db: EngineDb, step: Step) {
    step.Other? ==>
      match step.event.action
      case Create(r) => !r.kind.RuleThreshold?
      case Resolve(_, kind, _, _) => !kind.RuleThreshold?
      case Close(pk, _) => pk < |db.alerts.alerts| ==> !db.alerts.alerts[pk].dedup.kind.RuleThreshold?
      case SetStatus(pk, _) => pk < |db.alerts.alerts| ==> !db.alerts.alerts[pk].dedup.kind.RuleThreshold?
  }

  /** Resolving alerts of any kind as well, also by hand. */
  predicate ForeignOrClosing(db: EngineDb, step: Step) {
    Foreign(db, step)
    || match step.event.action
       case Resolve(_, _, _, _) => true
       case Close(_, _) => true
       case SetStatus(_, status) => status.Resolved?
       case Create(_) => false
  }

  ghost predicate AllForeign(db: EngineDb, steps: seq<Step>) {
    forall n :: 0 <= n < |steps| ==> Foreign(Run(db, steps[..n]), steps[n])
  }

  ghost predicate AllForeignOrClosing(db: EngineDb, steps: seq<Step>) {
    forall n :: 0 <= n < |steps| ==> ForeignOrClosing(Run(db, steps[..n]), steps[n])
  }

  lemma OtherNeverOpensRuleAlerts(db: EngineDb, step: Step, key: Key)
    requires step.Other? && UniqueOpen(db.alerts.alerts) && ForeignOrClosing(db, step)
    ensures HasOpen(Next(db, step).alerts, key) ==> HasOpen(db.alerts, key)
    ensures Foreign(db, step) && HasOpen(db.alerts, key) ==> HasOpen(Next(db, step).alerts, key)
  {
    var after := Next(db, step).alerts.alerts;
    match step.event.action
    case Create(r) => RaisedOpensOnlyItsKey(db.alerts, r, step.event.at, key);
    case Resolve(machine, kind, source, reason) =>
      ResolvedClosesOnlyItsKey(db.alerts, machine, kind, source, reason, step.event.at, key);
    case _ =>
      assert |after| == |db.alerts.alerts|;
      var c, d := key.machine.customer, DedupOf(key);
      assert forall i :: 0 <= i < |after| && OpenFor(after[i], c, d) ==> OpenFor(db.alerts.alerts[i], c, d);
      assert Foreign(db, step) ==>
          forall i :: 0 <= i < |after| && OpenFor(db.alerts.alerts[i], c, d) ==> OpenFor(after[i], c, d);
  }

  lemma StepKeepsAgreement(db: EngineDb, step: Step)
    requires UniqueOpen(db.alerts.alerts) && ForeignOrClosing(db, step)
    ensures UniqueOpen(Next(db, step).alerts.alerts)
    ensures OpenImpliesActive(db) ==> OpenImpliesActive(Next(db, step))
    ensures Foreign(db, step) && Agree(db) ==> Agree(Next(db, step))
  {
    match step
    case Evaluate(rules, metric, now) => EvaluationKeepsAgreement(rules, metric, db, now);
    case Other(event) =>
      ApplyKeepsUnique(db.alerts, event);
      forall key
        ensures HasOpen(Next(db, step).alerts, key) ==> HasOpen(db.alerts, key)
        ensures Foreign(db, step) && HasOpen(db.alerts, key) ==> HasOpen(Next(db, step).alerts, key)
      {
        OtherNeverOpensRuleAlerts(db, step, key);
      }
  }

  /** From an empty deployment, a timer is active exactly when its alert is open, also across edits of the rules. */
  lemma {:induction false} TimersAndAlertsAgree(steps: seq<Step>)
    requires AllForeign(EMPTY, steps)
    ensures UniqueOpen(Run(EMPTY, steps).alerts.alerts) && Agree(Run(EMPTY, steps))
  {
    if steps != [] {
      var init := steps[..|steps| - 1];
      assert forall n :: 0 <= n < |init| ==> init[..n] == steps[..n] && init[n] == steps[n];
      assert AllForeign(EMPTY, init);
      TimersAndAlertsAgree(init);
      StepKeepsAgreement(Run(EMPTY, init), steps[|steps| - 1]);
    }
  }

  /** When operators resolve alerts by hand, an open alert still has an active timer. */
  lemma {:induction false} OpenAlertsHaveActiveTimers(steps: seq<Step>)
    requires AllForeignOrClosing(EMPTY, steps)
    ensures UniqueOpen(Run(EMPTY, steps).alerts.alerts) && OpenImpliesActive(Run(EMPTY, steps))
  {
    if steps != [] {
      var init := steps[..|steps| - 1];
      assert forall n :: 0 <= n < |init| ==> init[..n] == steps[..n] && init[n] == steps[n];
      assert AllForeignOrClosing(EMPTY, init);
      OpenAlertsHaveActiveTimers(init);
      StepKeepsAgreement(Run(EMPTY, init), steps[|steps| - 1]);
    }
  }

  /** A manual status change of a rule alert keeps agreement exactly when it neither closes nor reopens it. */
  lemma ManualChangeKeepsAgreementExactly(db: EngineDb, pk: nat, status: Status, at: int, key: Key)
    requires Agree(db) && UniqueOpen(db.alerts.alerts) && pk < |db.alerts.alerts|
    requires db.alerts.alerts[pk].customer == key.machine.customer && db.alerts.alerts[pk].dedup == DedupOf(key)
    requires Accepts(db.alerts.alerts, pk, status)
    ensures Agree(Next(db, Other(Event(at, SetStatus(pk, status)))))
       <==> (status.Resolved? <==> db.alerts.alerts[pk].status.Resolved?)
  {
    var rows := db.alerts.alerts;
    var after := Next(db, Other(Event(at, SetStatus(pk, status))));
    var c, d := key.machine.customer, DedupOf(key);
    if status.Resolved? <==> rows[pk].status.Resolved? {
      forall k
        ensures HasOpen(after.alerts, k) == HasOpen(db.alerts, k)
      {
        assert forall i :: 0 <= i < |rows| ==>
          OpenFor(after.alerts.alerts[i], k.machine.customer, DedupOf(k))
              == OpenFor(rows[i], k.machine.customer, DedupOf(k));
      }
    } else if status.Resolved? {
      assert OpenFor(rows[pk], c, d);
      assert forall i :: 0 <= i < |rows| ==> !OpenFor(after.alerts.alerts[i], c, d);
      assert HasOpen(db.alerts, key) && !HasOpen(after.alerts, key);
    } else {
      assert OpenFor(after.alerts.alerts[pk], c, d);
      assert HasOpen(after.alerts, key) && !HasOpen(db.alerts, key);
    }
  }

  // ----- What a firing rule raises -----

  /** The open alert of the timer. */
  function OpenOf(alerts: seq<Alert>, key: Key): Option<nat> {
    FindOpen(alerts, key.machine.customer, DedupOf(key))
  }

  function Higher(a: Severity, b: Severity): Severity {
    if a.Rank() >= b.Rank() then a else b
  }

  /**
   * A rule that fires leaves the alert of its timer open, with its own severity or the higher one that the
   * alert had; a repeat is counted exactly when the rule's cooldown has passed since the last count.
   */
  lemma FiringRaisesItsSeverity(rule: Rule, m: Metric, db: EngineDb, now: int)
    requires m.value.Some? && Fires(rule, Lookup(db.states, KeyOf(rule, m)), m.timestamp, m.value.value)
    ensures var key, after := KeyOf(rule, m), Evaluated1(rule, m, db, now).alerts.alerts;
            var before, pk := OpenOf(db.alerts.alerts, key), OpenOf(after, key);
            && pk.Some?
            && var a := after[pk.value];
            if before.None? then
              && a.severity == rule.severity && a.kind.RuleThreshold? && a.machine == m.machine.pk && a.occurrences == 1
              && a.firstSeen == a.lastSeen == now && a.status.New? && a.score.None?
              && a.context == map["metric_name" := m.name, "dimension" := Dimension(m)]
            else
              var was := db.alerts.alerts[before.value];
              && pk == before && a.severity == Higher(rule.severity, was.severity)
              && (a.occurrences == was.occurrences + 1 <==> now - was.lastSeen >= rule.cooldown)
              && (a.occurrences == was.occurrences <==> now - was.lastSeen < rule.cooldown)
  {
    RaiseSetsTheRow(db.alerts, RaiseFor(rule, m), now);
  }

  /** A rule whose condition clears closes the open alert of its timer, with that reason, and leaves none open. */
  lemma ClearingClosesItsAlert(rule: Rule, m: Metric, db: EngineDb, now: int)
    requires UniqueOpen(db.alerts.alerts) && m.value.Some?
    requires Clears(rule, Lookup(db.states, KeyOf(rule, m)), m.timestamp, m.value.value)
    ensures var key, after := KeyOf(rule, m), Evaluated1(rule, m, db, now).alerts;
            var before := OpenOf(db.alerts.alerts, key);
            && OpenOf(after.alerts, key).None?
            && (before.None? ==> after == db.alerts)
            && (before.Some? ==>
                  && before.value < |after.alerts| && |after.outbox| == |db.alerts.outbox| + 1
                  && var a := after.alerts[before.value];
                  && a.status.Resolved? && a.lastSeen == now && "resolution_reason" in a.context
                  && a.context["resolution_reason"] == "condition_cleared")
  {
    ResolvingIsAnnounced(db.alerts, m.machine, RuleThreshold, SourceOf(rule, m), "condition_cleared", now);
    ResolvedClosesOnlyItsKey(db.alerts, m.machine, RuleThreshold, SourceOf(rule, m), "condition_cleared", now,
                             KeyOf(rule, m));
  }

  // ----- Severities over runs -----

  /** Every row is still there, of the same key and no less severe. */
  ghost predicate NoneEases(before: seq<Alert>, after: seq<Alert>) {
    && |before| <= |after|
    && forall i :: 0 <= i < |before| ==>
         after[i].dedup == before[i].dedup && after[i].severity.Rank() >= before[i].severity.Rank()
  }

  lemma ApplyEasesNone(db: Alerts.Db, e: Event)
    ensures NoneEases(db.alerts, Apply(db, e).alerts)
  {
    if e.action.Create? {
      RaiseSetsTheRow(db, e.action.raise, e.at);
    }
  }

  lemma RuleEasesNone(rule: Rule, m: Metric, db: EngineDb, now: int)
    requires m.value.Some?
    ensures NoneEases(db.alerts.alerts, Evaluated1(rule, m, db, now).alerts.alerts)
  {
    ApplyEasesNone(db.alerts, Event(now, Create(RaiseFor(rule, m))));
    ApplyEasesNone(db.alerts, Event(now, Resolve(m.machine, RuleThreshold, SourceOf(rule, m), "condition_cleared")));
  }

  /** The rules after rule i leave what it raised as severe. */
  lemma {:induction false} LaterRulesEaseNone(rules: seq<Rule>, i: nat, m: Metric, db: EngineDb, now: int)
    requires i <= |rules|
    ensures NoneEases(Evaluated(rules[..i], m, db, now).alerts.alerts, Evaluated(rules, m, db, now).alerts.alerts)
    decreases |rules|
  {
    if i < |rules| {
      var init := rules[..|rules| - 1];
      LaterRulesEaseNone(init, i, m, db, now);
      assert init[..i] == rules[..i];
      if m.value.Some? && Applies(rules[|rules| - 1], m) {
        RuleEasesNone(rules[|rules| - 1], m, Evaluated(init, m, db, now), now);
      }
    } else {
      assert rules[..i] == rules;
    }
  }

  lemma StepEasesNone(db: EngineDb, step: Step)
    ensures NoneEases(db.alerts.alerts, Next(db, step).alerts.alerts)
  {
    match step
    case Evaluate(rules, metric, now) =>
      LaterRulesEaseNone(rules, 0, metric, db, now);
      assert rules[..0] == [];
    case Other(event) => ApplyEasesNone(db.alerts, event);
  }

  lemma {:induction false} RunEasesNone(db: EngineDb, steps: seq<Step>, n: nat)
    requires n <= |steps|
    ensures NoneEases(Run(db, steps[..n]).alerts.alerts, Run(db, steps).alerts.alerts)
    decreases |steps|
  {
    if n < |steps| {
      var init := steps[..|steps| - 1];
      RunEasesNone(db, init, n);
      assert init[..n] == steps[..n];
      StepEasesNone(Run(db, init), steps[|steps| - 1]);
    } else {
      assert steps[..n] == steps;
    }
  }

  /** In step n rule number i of those evaluated fires. */
  predicate FiresIn(db: EngineDb, steps: seq<Step>, n: nat, i: nat) {
    && n < |steps| && steps[n].Evaluate? && i < |steps[n].rules| && steps[n].metric.value.Some?
    && var rule, m := steps[n].rules[i], steps[n].metric;
    && Applies(rule, m)
    && var before := Evaluated(steps[n].rules[..i], m, Run(db, steps[..n]), steps[n].now);
       Fires(rule, Lookup(before.states, KeyOf(rule, m)), m.timestamp, m.value.value)
  }

  /** The alert that the rule then raises or refreshes. */
  function FiredAlert(db: EngineDb, steps: seq<Step>, n: nat, i: nat): Option<nat>
    requires FiresIn(db, steps, n, i)
  {
    var rule, m := steps[n].rules[i], steps[n].metric;
    OpenOf(Evaluated(steps[n].rules[..i + 1], m, Run(db, steps[..n]), steps[n].now).alerts.alerts, KeyOf(rule, m))
  }

  lemma FiredAlertIsAsSevere(db: EngineDb, steps: seq<Step>, n: nat, i: nat)
    requires FiresIn(db, steps, n, i)
    ensures var rule, m := steps[n].rules[i], steps[n].metric;
            var after := Evaluated(steps[n].rules[..i + 1], m, Run(db, steps[..n]), steps[n].now).alerts.alerts;
            && FiredAlert(db, steps, n, i).Some?
            && var a := after[FiredAlert(db, steps, n, i).value];
               a.dedup == DedupOf(KeyOf(rule, m)) && a.severity.Rank() >= rule.severity.Rank()
  {
    var rule, m, now := steps[n].rules[i], steps[n].metric, steps[n].now;
    assert steps[n].rules[..i + 1][..i] == steps[n].rules[..i];
    FiringRaisesItsSeverity(rule, m, Evaluated(steps[n].rules[..i], m, Run(db, steps[..n]), now), now);
  }

  /**
   * An alert never ranks below any edition of its rule that fired it: whatever is evaluated, raised, edited
   * or closed afterwards, its row is at least as severe at the end of the run.
   */
  lemma RuleAlertsNeverEase(db: EngineDb, steps: seq<Step>, n: nat, i: nat)
    requires FiresIn(db, steps, n, i)
    ensures var rule, m, end := steps[n].rules[i], steps[n].metric, Run(db, steps).alerts.alerts;
            var pk := FiredAlert(db, steps, n, i);
            && pk.Some? && pk.value < |end|
            && end[pk.value].dedup == DedupOf(KeyOf(rule, m))
            && end[pk.value].severity.Rank() >= rule.severity.Rank()
  {
    var rules, m, now := steps[n].rules, steps[n].metric, steps[n].now;
    FiredAlertIsAsSevere(db, steps, n, i);
    LaterRulesEaseNone(rules, i + 1, m, Run(db, steps[..n]), now);
    assert steps[..n + 1][..n] == steps[..n];
    RunEasesNone(db, steps, n + 1);
  }
}
