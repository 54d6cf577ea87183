/**
 * The scan for silent machines: rules on "machine.online" put machines offline that have not
 * been seen for the rule's duration, and keep an alert open for each rule that says so.
 */
module OfflineScan {
  import opened Common
  import opened Alerts

  /** A machine row, at the position that is its key. */
  datatype Host = Host(customer: nat, environment: nat, offline: bool, lastSeen: Option<int>)

  /** An enabled rule on "machine.online". */
  datatype Rule = Rule(
    pk: nat,
    customer: nat,
    environment: Option<nat>,
    machine: Option<nat>,
    duration: nat,
    severity: Severity,
    cooldown: nat)

  /** gone: the machines whose machine.offline event was published, in order. */
  datatype Fleet = Fleet(hosts: seq<Host>, gone: seq<nat>, alerts: Alerts.Db)

  /** The rule finds the machine silent. */
  predicate Silent(rule: Rule, hosts: seq<Host>, pk: nat, now: int)
    requires pk < |hosts|
  {
    var h := hosts[pk];
    && h.customer == rule.customer
    && (rule.environment.Some? ==> h.environment == rule.environment.value)
    && (rule.machine.Some? ==> pk == rule.machine.value)
    && (h.lastSeen.None? || h.lastSeen.value < now - rule.duration)
  }

  function Silence(rule: Rule, hosts: seq<Host>, pk: nat): Raise
    requires pk < |hosts|
  {
    Raise(Machine(pk, hosts[pk].customer), MachineOffline, rule.severity, RuleOnly(rule.pk),
          map["metric_name" := "machine.online"], None, rule.cooldown)
  }

  function Checked(f: Fleet, rule: Rule, pk: nat, now: int): (r: Fleet)
    requires pk < |f.hosts|
    ensures |r.hosts| == |f.hosts|
  {
    if !Silent(rule, f.hosts, pk, now) then f
    else
      Fleet(f.hosts[pk := f.hosts[pk].(offline := true)],
            if f.hosts[pk].offline then f.gone else f.gone + [pk],
            Raised(f.alerts, Silence(rule, f.hosts, pk), now))
  }

  /** One rule over the first n machines. */
  function Swept(f: Fleet, rule: Rule, n: nat, now: int): (r: Fleet)
    requires n <= |f.hosts|
    ensures |r.hosts| == |f.hosts|
  {
    if n == 0 then f else Checked(Swept(f, rule, n - 1, now), rule, n - 1, now)
  }

  function Scanned(f: Fleet, rules: seq<Rule>, now: int): (r: Fleet)
    ensures |r.hosts| == |f.hosts|
  {
    if rules == [] then f
    else Swept(Scanned(f, rules[..|rules| - 1], now), rules[|rules| - 1], |f.hosts|, now)
  }

  /** How many of the first n machines the rule finds silent. */
  function Silents(hosts: seq<Host>, rule: Rule, n: nat, now: int): nat
    requires n <= |hosts|
  {
    if n == 0 then 0 else Silents(hosts, rule, n - 1, now) + if Silent(rule, hosts, n - 1, now) then 1 else 0
  }

  function AllSilents(hosts: seq<Host>, rules: seq<Rule>, now: int): nat {
    if rules == [] then 0
    else AllSilents(hosts, rules[..|rules| - 1], now) + Silents(hosts, rules[|rules| - 1], |hosts|, now)
  }

  class OfflineMonitor {
    var hosts: seq<Host>
    var gone: seq<nat>
    const service: AlertService

    function State(): Fleet
      reads this, service
    {
      Fleet(hosts, gone, service.State())
    }

    constructor (hosts: seq<Host>, service: AlertService)
      ensures this.hosts == hosts && gone == [] && this.service == service
    {
      this.hosts, gone, this.service := hosts, [], service;
    }

    /** The inner loop: one rule over the machines. */
    method Sweep(rule: Rule, now: int) returns (count: nat)
      requires UniqueOpen(service.alerts)
      modifies this, service
      ensures State() == Swept(old(State()), rule, |old(hosts)|, now) && UniqueOpen(service.alerts)
      ensures count == Silents(old(hosts), rule, |old(hosts)|, now)
    {
      ghost var start := State();
      count := 0;
      for pk := 0 to |hosts|
        invariant |hosts| == |start.hosts| && UniqueOpen(service.alerts)
        invariant State() == Swept(start, rule, pk, now)
        invariant SameButPower(start.hosts, hosts)
        invariant count == Silents(start.hosts, rule, pk, now)
      {
        if !Silent(rule, hosts, pk, now) {
          continue;
        }
        var transitioned := !hosts[pk].offline;
        var raise := Silence(rule, hosts, pk);
        hosts := hosts[pk := hosts[pk].(offline := true)];
        if transitioned {
          gone := gone + [pk];
        }
        var _, _ := service.CreateOrUpdateAlert(raise, now);
        count := count + 1;
      }
    }

    /** evaluate_offline_machines with the given rules. */
    method EvaluateOfflineMachines(rules: seq<Rule>, now: int) returns (count: nat)
      requires UniqueOpen(service.alerts)
      modifies this, service
      ensures State() == Scanned(old(State()), rules, now) && UniqueOpen(service.alerts)
      ensures count == AllSilents(old(hosts), rules, now)
    {
      ghost var start := State();
      count := 0;
      for i := 0 to |rules|
        invariant |hosts| == |start.hosts| && UniqueOpen(service.alerts)
        invariant State() == Scanned(start, rules[..i], now)
        invariant SameButPower(start.hosts, hosts)
        invariant count == AllSilents(start.hosts, rules[..i], now)
      {
        assert rules[..i + 1][..i] == rules[..i];
        SilentsIgnorePower(start.hosts, hosts, rules[i], |hosts|, now);
        SweepKeepsRows(State(), rules[i], |hosts|, now);
        var found := Sweep(rules[i], now);
        count := count + found;
      }
      assert rules[..|rules|] == rules;
    }
  }

  /** Only the power of the machines differs, so rules find the same ones silent. */
  predicate SameButPower(a: seq<Host>, b: seq<Host>) {
    |a| == |b| && forall i :: 0 <= i < |a| ==> b[i].(offline := a[i].offline) == a[i]
  }

  lemma {:induction false} SilentsIgnorePower(a: seq<Host>, b: seq<Host>, rule: Rule, n: nat, now: int)
    requires SameButPower(a, b) && n <= |a|
    ensures Silents(a, rule, n, now) == Silents(b, rule, n, now)
  {
    if n > 0 {
      SilentsIgnorePower(a, b, rule, n - 1, now);
    }
  }

  lemma {:induction false} SweepKeepsRows(f: Fleet, rule: Rule, n: nat, now: int)
    requires n <= |f.hosts|
    ensures SameButPower(f.hosts, Swept(f, rule, n, now).hosts)
  {
    if n > 0 {
      SweepKeepsRows(f, rule, n - 1, now);
    }
  }

  // ----- What a scan establishes -----

  /** Published exactly for the machines that changed to offline, and once each. */
  ghost predicate EventsAreTransitions(f: Fleet, r: Fleet) {
    && SameButPower(f.hosts, r.hosts)
    && f.gone <= r.gone
    && (forall pk: nat :: pk < |f.hosts| ==>
          (pk in r.gone[|f.gone|..] <==> !f.hosts[pk].offline && r.hosts[pk].offline))
    && (forall i, j :: |f.gone| <= i < j < |r.gone| ==> r.gone[i] != r.gone[j])
    && (forall pk :: pk in r.gone[|f.gone|..] ==> pk < |f.hosts|)
    && (forall pk: nat :: pk < |f.hosts| && f.hosts[pk].offline ==> r.hosts[pk].offline)
  }

  lemma CheckIsTransition(f: Fleet, g: Fleet, rule: Rule, pk: nat, now: int, r: Fleet)
    requires EventsAreTransitions(f, g) && pk < |g.hosts| && r == Checked(g, rule, pk, now)
    ensures EventsAreTransitions(f, r)
  {
    if r.gone != g.gone {
      assert r.gone[|f.gone|..] == g.gone[|f.gone|..] + [pk];
      forall i | |f.gone| <= i < |g.gone|
        ensures g.gone[i] != pk
      {
        assert g.gone[i] == g.gone[|f.gone|..][i - |f.gone|];
      }
    }
  }

  lemma {:induction false} SweepIsTransition(f: Fleet, g: Fleet, rule: Rule, n: nat, now: int, r: Fleet)
    requires EventsAreTransitions(f, g) && n <= |g.hosts| && r == Swept(g, rule, n, now)
    ensures EventsAreTransitions(f, r)
  {
    if n > 0 {
      var before := Swept(g, rule, n - 1, now);
      SweepIsTransition(f, g, rule, n - 1, now, before);
      CheckIsTransition(f, before, rule, n - 1, now, r);
    }
  }

  /** A scan publishes one offline event for each machine it takes offline, however many rules find it silent. */
  lemma {:induction false} ScanPublishesTransitions(f: Fleet, rules: seq<Rule>, now: int)
    ensures EventsAreTransitions(f, Scanned(f, rules, now))
  {
    if rules == [] {
      assert f.gone[|f.gone|..] == [];
    } else {
      ScanPublishesTransitions(f, rules[..|rules| - 1], now);
      SweepIsTransition(f, Scanned(f, rules[..|rules| - 1], now), rules[|rules| - 1], |f.hosts|, now,
          Scanned(f, rules, now));
    }
  }

  /** The rule's alert on the machine is open, and no less severe than the rule. */
  predicate HasAlert(alerts: seq<Alert>, rule: Rule, hosts: seq<Host>, pk: nat)
    requires pk < |hosts|
  {
    var open := FindOpen(alerts, hosts[pk].customer, DedupKey(pk, MachineOffline, RuleOnly(rule.pk)));
    open.Some? && alerts[open.value].severity.Rank() >= rule.severity.Rank()
  }

  /** The rule's verdict on the first n machines is in force: offline, with an open alert. */
  ghost predicate InForce(f: Fleet, rule: Rule, n: nat, now: int)
    requires n <= |f.hosts|
  {
    forall pk: nat :: pk < n && Silent(rule, f.hosts, pk, now) ==>
        f.hosts[pk].offline && HasAlert(f.alerts.alerts, rule, f.hosts, pk)
  }

  lemma RaisingKeepsOpen(alerts: Alerts.Db, r: Raise, now: int, customer: nat, key: DedupKey)
    requires FindOpen(alerts.alerts, customer, key).Some?
    ensures var before, after := FindOpen(alerts.alerts, customer, key), Raised(alerts, r, now).alerts;
            && FindOpen(after, customer, key) == before
            && after[before.value].severity.Rank() >= alerts.alerts[before.value].severity.Rank()
  {
    RaiseSetsTheRow(alerts, r, now);
    var pk, after := FindOpen(alerts.alerts, customer, key).value, Raised(alerts, r, now).alerts;
    assert OpenFor(after[pk], customer, key);
    assert forall i :: 0 <= i < |alerts.alerts| ==>
      OpenFor(after[i], customer, key) == OpenFor(alerts.alerts[i], customer, key);
  }

  lemma CheckKeepsInForce(f: Fleet, rule: Rule, n: nat, other: Rule, pk: nat, now: int)
    requires n <= |f.hosts| && pk < |f.hosts| && InForce(f, rule, n, now)
    ensures InForce(Checked(f, other, pk, now), rule, n, now)
  {
    var r := Checked(f, other, pk, now);
    forall k: nat | k < n && Silent(rule, r.hosts, k, now)
      ensures r.hosts[k].offline && HasAlert(r.alerts.alerts, rule, r.hosts, k)
    {
      assert Silent(rule, f.hosts, k, now);
      if Silent(other, f.hosts, pk, now) {
        RaisingKeepsOpen(f.alerts, Silence(other, f.hosts, pk), now, f.hosts[k].customer,
                         DedupKey(k, MachineOffline, RuleOnly(rule.pk)));
      }
    }
  }

  lemma CheckPutsInForce(f: Fleet, rule: Rule, pk: nat, now: int)
    requires pk < |f.hosts| && InForce(f, rule, pk, now)
    ensures InForce(Checked(f, rule, pk, now), rule, pk + 1, now)
  {
    CheckKeepsInForce(f, rule, pk, rule, pk, now);
    if Silent(rule, f.hosts, pk, now) {
      RaiseSetsTheRow(f.alerts, Silence(rule, f.hosts, pk), now);
    }
  }

  lemma {:induction false} SweepPutsInForce(f: Fleet, rule: Rule, n: nat, now: int)
    requires n <= |f.hosts|
    ensures InForce(Swept(f, rule, n, now), rule, n, now)
  {
    if n > 0 {
      SweepPutsInForce(f, rule, n - 1, now);
      CheckPutsInForce(Swept(f, rule, n - 1, now), rule, n - 1, now);
    }
  }

  lemma {:induction false} SweepKeepsInForce(f: Fleet, rule: Rule, other: Rule, n: nat, now: int)
    requires n <= |f.hosts| && InForce(f, rule, |f.hosts|, now)
    ensures InForce(Swept(f, other, n, now), rule, |f.hosts|, now)
  {
    if n > 0 {
      SweepKeepsInForce(f, rule, other, n - 1, now);
      CheckKeepsInForce(Swept(f, other, n - 1, now), rule, |f.hosts|, other, n - 1, now);
    }
  }

  /** After a scan every machine a rule finds silent is offline and has that rule's alert open. */
  lemma {:induction false} ScanPutsEveryRuleInForce(f: Fleet, rules: seq<Rule>, now: int)
    ensures forall i :: 0 <= i < |rules| ==> InForce(Scanned(f, rules, now), rules[i], |f.hosts|, now)
  {
    if rules != [] {
      var init, last := rules[..|rules| - 1], rules[|rules| - 1];
      var before := Scanned(f, init, now);
      ScanPutsEveryRuleInForce(f, init, now);
      SweepPutsInForce(before, last, |f.hosts|, now);
      forall i | 0 <= i < |init|
        ensures InForce(Scanned(f, rules, now), init[i], |f.hosts|, now)
      {
        SweepKeepsInForce(before, init[i], last, |f.hosts|, now);
      }
      assert forall i :: 0 <= i < |init| ==> init[i] == rules[i];
    }
  }

  /** The rule is for machines like this one, which was never seen, or longer ago than the rule allows. */
  predicate Overdue(rule: Rule, host: Host, pk: nat, now: int) {
    && rule.customer == host.customer && rule.environment in {None, Some(host.environment)}
    && rule.machine in {None, Some(pk)}
    && (host.lastSeen == None || now - host.lastSeen.value > rule.duration)
  }

  /** Some rule finds the machine overdue. */
  predicate SomeSilent(rules: seq<Rule>, hosts: seq<Host>, pk: nat, now: int)
    requires pk < |hosts|
  {
    exists i :: 0 <= i < |rules| && Overdue(rules[i], hosts[pk], pk, now)
  }

  lemma SilentIsOverdue(rule: Rule, hosts: seq<Host>, pk: nat, now: int)
    requires pk < |hosts|
    ensures Silent(rule, hosts, pk, now) <==> Overdue(rule, hosts[pk], pk, now)
  {
  }

  lemma {:induction false} SweepPower(f: Fleet, rule: Rule, n: nat, now: int, pk: nat)
    requires n <= |f.hosts| && pk < |f.hosts|
    ensures Swept(f, rule, n, now).hosts[pk].offline <==>
              f.hosts[pk].offline || (pk < n && Overdue(rule, f.hosts[pk], pk, now))
  {
    if n > 0 {
      SweepPower(f, rule, n - 1, now, pk);
      SweepKeepsRows(f, rule, n - 1, now);
      SilentIsOverdue(rule, Swept(f, rule, n - 1, now).hosts, n - 1, now);
    }
  }

  /** A machine is offline after a scan exactly when it was before or some rule finds it silent. */
  lemma {:induction false} ScanPower(f: Fleet, rules: seq<Rule>, now: int, pk: nat)
    requires pk < |f.hosts|
    ensures Scanned(f, rules, now).hosts[pk].offline <==> f.hosts[pk].offline || SomeSilent(rules, f.hosts, pk, now)
  {
    if rules != [] {
      var init, last := rules[..|rules| - 1], rules[|rules| - 1];
      ScanPower(f, init, now, pk);
      ScanPublishesTransitions(f, init, now);
      SweepPower(Scanned(f, init, now), last, |f.hosts|, now, pk);
      assert forall i :: 0 <= i < |init| ==> init[i] == rules[i];
    }
  }

  /**
   * A rule that finds a machine silent raises its own alert on it: with the rule's severity when none was
   * open, and otherwise never easing it and counting it again exactly when the rule's cooldown has passed.
   */
  lemma CheckRaisesTheRule(f: Fleet, rule: Rule, pk: nat, now: int)
    requires pk < |f.hosts| && Overdue(rule, f.hosts[pk], pk, now)
    ensures var key, r := DedupKey(pk, MachineOffline, RuleOnly(rule.pk)), Checked(f, rule, pk, now).alerts.alerts;
            var before, after := FindOpen(f.alerts.alerts, f.hosts[pk].customer, key),
                                 FindOpen(r, f.hosts[pk].customer, key);
            && after.Some?
            && var a := r[after.value];
            if before.None? then
              && a.severity == rule.severity && a.machine == pk && a.kind.MachineOffline? && a.occurrences == 1
              && a.status.New? && a.firstSeen == a.lastSeen == now
              && a.context == map["metric_name" := "machine.online"]
            else
              var was := f.alerts.alerts[before.value];
              && after == before && a.severity.Rank() == Max(was.severity.Rank(), rule.severity.Rank())
              && a.occurrences == was.occurrences + (if now - was.lastSeen >= rule.cooldown then 1 else 0)
  {
    RaiseSetsTheRow(f.alerts, Silence(rule, f.hosts, pk), now);
  }

  /** The rest of the fleet is left alone: a machine that is not overdue keeps its row and its alerts. */
  lemma CheckOfAnotherChangesNothing(f: Fleet, rule: Rule, pk: nat, now: int)
    requires pk < |f.hosts| && !Overdue(rule, f.hosts[pk], pk, now)
    ensures Checked(f, rule, pk, now) == f
  {
  }

  /** The verdicts of a rule are counted one for each machine that is overdue. */
  lemma {:induction false} SilentsCount(hosts: seq<Host>, rule: Rule, n: nat, now: int)
    requires n <= |hosts|
    ensures Silents(hosts, rule, n, now) == |set pk: nat | pk < n && Overdue(rule, hosts[pk], pk, now)|
  {
    var all := set pk: nat | pk < n && Overdue(rule, hosts[pk], pk, now);
    if n == 0 {
      assert all == {};
    } else {
      SilentsCount(hosts, rule, n - 1, now);
      SilentIsOverdue(rule, hosts, n - 1, now);
      assert (set pk: nat | pk < n - 1 && Overdue(rule, hosts[pk], pk, now)) == all - {n - 1};
      CountOneMore(all, n - 1);
    }
  }
}
