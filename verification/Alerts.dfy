/**
 * The alert lifecycle: deduplication, cooldown, escalation and resolution.
 *
 * An alert's primary key is its position in the table; rows are never deleted. Publications
 * and notification requests, which leave when the transaction commits, are entries of an
 * outbox.
 */
module Alerts {
  import opened Common

  datatype Status = New | Acknowledged | InProgress | Resolved

  datatype Kind = RuleThreshold | MachineOffline | MlAnomaly

  function KindName(kind: Kind): string {
    match kind
    case RuleThreshold => "RULE_THRESHOLD"
    case MachineOffline => "MACHINE_OFFLINE"
    case MlAnomaly => "ML_ANOMALY"
  }

  datatype Machine = Machine(pk: nat, customer: nat)

  /** What distinguishes alerts of one kind on one machine: "rule:dimension", a rule, or a name. */
  datatype Source = RuleSeries(rule: nat, dimension: string) | RuleOnly(rule: nat) | Named(name: string)

  /** The injective identifier behind the SHA-256 deduplication key. */
  datatype DedupKey = DedupKey(machine: nat, kind: Kind, source: Source)

  function Dedup(machine: Machine, kind: Kind, source: Source): DedupKey {
    DedupKey(machine.pk, kind, if source == Named("") then Named(KindName(kind)) else source)
  }

  /** Raises are of one key exactly for one machine, kind and source, an empty name being that of the kind. */
  lemma SameKeyExactly(m: Machine, k: Kind, s: Source, n: Machine, l: Kind, t: Source)
    ensures Dedup(m, k, s) == Dedup(n, l, t)
       <==> m.pk == n.pk && k == l
            && (s == t || (s == Named("") && t == Named(KindName(k))) || (t == Named("") && s == Named(KindName(k))))
    ensures KindName(k) == KindName(l) <==> k == l
  {
    assert KindName(RuleThreshold)[0] == 'R' && KindName(MachineOffline)[1] == 'A' && KindName(MlAnomaly)[1] == 'L';
    assert KindName(MachineOffline)[0] == 'M' && KindName(MlAnomaly)[0] == 'M';
  }

  type Context = map<string, string>

  datatype Alert = Alert(
    customer: nat,
    machine: nat,
    kind: Kind,
    dedup: DedupKey,
    severity: Severity,
    status: Status,
    firstSeen: int,
    lastSeen: int,
    occurrences: nat,
    escalation: nat,
    score: Option<real>,
    context: Context)

  /** A publication; notify asks for a notification of the alert as well. */
  datatype Notice = Notice(
    alert: nat,
    created: bool,
    severity: Severity,
    status: Status,
    occurrences: nat,
    notify: bool)

  datatype Db = Db(alerts: seq<Alert>, outbox: seq<Notice>)

  /** The keyword arguments of create_or_update_alert. */
  datatype Raise = Raise(
    machine: Machine,
    kind: Kind,
    severity: Severity,
    source: Source,
    context: Context,
    score: Option<real>,
    cooldown: nat)

  predicate OpenFor(a: Alert, customer: nat, key: DedupKey) {
    !a.status.Resolved? && a.customer == customer && a.dedup == key
  }

  /** The constraint uniq_open_alert_customer_dedup. */
  ghost predicate UniqueOpen(alerts: seq<Alert>) {
    forall i, j :: 0 <= i < j < |alerts| && !alerts[i].status.Resolved? ==>
      !OpenFor(alerts[j], alerts[i].customer, alerts[i].dedup)
  }

  /** The newest open alert with a key. */
  function FindOpen(alerts: seq<Alert>, customer: nat, key: DedupKey): (r: Option<nat>)
    ensures r.Some? ==> r.value < |alerts| && OpenFor(alerts[r.value], customer, key)
    ensures r.Some? ==> forall i :: r.value < i < |alerts| ==> !OpenFor(alerts[i], customer, key)
    ensures r.None? ==> forall i :: 0 <= i < |alerts| ==> !OpenFor(alerts[i], customer, key)
  {
    if alerts == [] then None
    else if OpenFor(alerts[|alerts| - 1], customer, key) then Some(|alerts| - 1)
    else FindOpen(alerts[..|alerts| - 1], customer, key)
  }

  function NoticeOf(pk: nat, a: Alert, created: bool, notify: bool): Notice {
    Notice(pk, created, a.severity, a.status, a.occurrences, notify)
  }

  predicate Notified(a: Alert) { a.severity.Rank() >= High.Rank() }

  // ----- create_or_update_alert -----

  predicate OutsideCooldown(a: Alert, r: Raise, now: int) {
    now - a.lastSeen >= r.cooldown
  }

  predicate Escalates(a: Alert, r: Raise) {
    r.severity.Rank() > a.severity.Rank()
  }

  function Refreshed(a: Alert, r: Raise, now: int): Alert {
    var seen := if OutsideCooldown(a, r, now)
                then a.(occurrences := a.occurrences + 1, lastSeen := now, context := a.context + r.context)
                else a;
    var ranked := if Escalates(a, r)
                  then seen.(severity := r.severity, escalation := seen.escalation + 1)
                  else seen;
    if r.score.Some? then ranked.(score := r.score) else ranked
  }

  function Born(r: Raise, now: int): Alert {
    Alert(r.machine.customer, r.machine.pk, r.kind, Dedup(r.machine, r.kind, r.source), r.severity, New,
          now, now, 1, 0, r.score, r.context)
  }

  function Target(alerts: seq<Alert>, r: Raise): Option<nat> {
    FindOpen(alerts, r.machine.customer, Dedup(r.machine, r.kind, r.source))
  }

  function Raised(db: Db, r: Raise, now: int): Db {
    match Target(db.alerts, r)
    case Some(pk) =>
      var a := db.alerts[pk];
      var b := Refreshed(a, r, now);
      Db(db.alerts[pk := b],
         db.outbox + if OutsideCooldown(a, r, now) || Escalates(a, r) || r.score.Some?
                     then [NoticeOf(pk, b, false, Notified(b))] else [])
    case None =>
      var b := Born(r, now);
      Db(db.alerts + [b], db.outbox + [NoticeOf(|db.alerts|, b, true, Notified(b))])
  }

  /** Raising an alert changes nothing exactly when it repeats an open one: in cooldown, no worse, no score. */
  lemma RepeatIsSilentExactlyInCooldown(db: Db, r: Raise, now: int)
    ensures Raised(db, r, now) == db
       <==> exists pk :: 0 <= pk < |db.alerts|
              && OpenFor(db.alerts[pk], r.machine.customer, Dedup(r.machine, r.kind, r.source))
              && (forall i :: pk < i < |db.alerts| ==>
                    !OpenFor(db.alerts[i], r.machine.customer, Dedup(r.machine, r.kind, r.source)))
              && now - db.alerts[pk].lastSeen < r.cooldown
              && r.severity.Rank() <= db.alerts[pk].severity.Rank() && r.score.None?
  {
    var target := Target(db.alerts, r);
    if target.Some? {
      var refreshed := Refreshed(db.alerts[target.value], r, now);
      assert |db.outbox + [NoticeOf(target.value, refreshed, false, true)]| != |db.outbox|;
      assert db.alerts[target.value := db.alerts[target.value]] == db.alerts && db.outbox + [] == db.outbox;
    } else {
      assert |Raised(db, r, now).alerts| != |db.alerts|;
    }
  }

  /** Raising an alert leaves the row open with the higher severity, and counts it unless it is within its cooldown. */
  lemma RaiseSetsTheRow(db: Db, r: Raise, now: int)
    ensures var c, key, after := r.machine.customer, Dedup(r.machine, r.kind, r.source), Raised(db, r, now).alerts;
            var before, pk := FindOpen(db.alerts, c, key), FindOpen(after, c, key);
            && pk.Some? && (before.Some? ==> pk == before) && (before.None? ==> pk.value == |db.alerts|)
            && (forall i :: 0 <= i < |db.alerts| && i != pk.value ==> after[i] == db.alerts[i])
            && var a := after[pk.value];
            && (before.None? ==>
                  && a.machine == r.machine.pk && a.kind == r.kind && a.severity == r.severity && a.status.New?
                  && a.firstSeen == a.lastSeen == now && a.occurrences == 1 && a.escalation == 0
                  && a.score == r.score && a.context == r.context)
            && (before.Some? ==>
                  var was := db.alerts[before.value];
                  var counts := now - was.lastSeen >= r.cooldown;
                  && a.severity.Rank() == Max(was.severity.Rank(), r.severity.Rank())
                  && a.escalation == was.escalation + (if r.severity.Rank() > was.severity.Rank() then 1 else 0)
                  && a.occurrences == was.occurrences + (if counts then 1 else 0)
                  && a.lastSeen == (if counts then now else was.lastSeen)
                  && a.context == (if counts then was.context + r.context else was.context)
                  && a.score == (if r.score.Some? then r.score else was.score)
                  && a.firstSeen == was.firstSeen && a.status == was.status)
  {
    var c, key, after := r.machine.customer, Dedup(r.machine, r.kind, r.source), Raised(db, r, now).alerts;
    var before := FindOpen(db.alerts, c, key);
    var pk := if before.Some? then before.value else |db.alerts|;
    assert OpenFor(after[pk], c, key);
    assert forall i :: pk < i < |after| ==> !OpenFor(after[i], c, key);
    assert FindOpen(after, c, key) == Some(pk);
  }

  /**
   * A raise publishes exactly one notice when it creates, counts, escalates or scores an alert, and none
   * otherwise; the notice shows the row as it is afterwards and asks for a notification exactly of a HIGH
   * or CRITICAL one.
   */
  lemma RaiseIsAnnounced(db: Db, r: Raise, now: int)
    ensures var c, key, after := r.machine.customer, Dedup(r.machine, r.kind, r.source), Raised(db, r, now);
            var before, pk := FindOpen(db.alerts, c, key), FindOpen(after.alerts, c, key);
            if before.Some? && now - db.alerts[before.value].lastSeen < r.cooldown && r.score.None?
               && r.severity.Rank() <= db.alerts[before.value].severity.Rank()
            then after.outbox == db.outbox
            else
              && |after.outbox| == |db.outbox| + 1 && after.outbox[..|db.outbox|] == db.outbox && pk.Some?
              && var a, n := after.alerts[pk.value], after.outbox[|db.outbox|];
              && n.alert == pk.value && n.severity == a.severity && n.status == a.status
              && n.occurrences == a.occurrences
              && (n.created <==> before.None?)
              && (n.notify <==> a.severity.High? || a.severity.Critical?)
  {
    RaiseSetsTheRow(db, r, now);
  }

  // ----- Resolution -----

  function Closed(a: Alert, reason: string, now: int): Alert {
    a.(status := Resolved, lastSeen := now, context := a.context["resolution_reason" := reason])
  }

  function ClosedAt(db: Db, pk: nat, reason: string, now: int): Db
    requires pk < |db.alerts|
  {
    var b := Closed(db.alerts[pk], reason, now);
    Db(db.alerts[pk := b], db.outbox + [NoticeOf(pk, b, false, false)])
  }

  /** resolve_open_alert. */
  function ResolvedOpen(db: Db, machine: Machine, kind: Kind, source: Source, reason: string, now: int): Db {
    var pk := FindOpen(db.alerts, machine.customer, Dedup(machine, kind, source));
    if pk.Some? then ClosedAt(db, pk.value, reason, now) else db
  }

  /** Resolving closes the open alert of the key, says why, and publishes that once, without a notification. */
  lemma ResolvingIsAnnounced(db: Db, machine: Machine, kind: Kind, source: Source, reason: string, now: int)
    ensures var c, key := machine.customer, Dedup(machine, kind, source);
            var pk, after := FindOpen(db.alerts, c, key), ResolvedOpen(db, machine, kind, source, reason, now);
            if pk.None? then after == db
            else
              && |after.alerts| == |db.alerts| && |after.outbox| == |db.outbox| + 1
              && after.outbox[..|db.outbox|] == db.outbox
              && (forall i :: 0 <= i < |db.alerts| && i != pk.value ==> after.alerts[i] == db.alerts[i])
              && var was, a, n := db.alerts[pk.value], after.alerts[pk.value], after.outbox[|db.outbox|];
              && a.status.Resolved? && a.lastSeen == now && a.severity == was.severity
              && a.occurrences == was.occurrences && a.firstSeen == was.firstSeen && a.dedup == was.dedup
              && a.context == was.context["resolution_reason" := reason]
              && n == Notice(pk.value, false, a.severity, Resolved, a.occurrences, false)
  {
  }

  predicate OpenOn(a: Alert, machine: Machine, kind: Kind) {
    !a.status.Resolved? && a.customer == machine.customer && a.machine == machine.pk && a.kind == kind
  }

  /** Among the first n alerts, the open ones of a kind on a machine. */
  function OpenRows(alerts: seq<Alert>, machine: Machine, kind: Kind, n: nat): (r: seq<nat>)
    requires n <= |alerts|
    ensures forall k :: 0 <= k < |r| ==> r[k] < n && OpenOn(alerts[r[k]], machine, kind)
    ensures forall j, k :: 0 <= j < k < |r| ==> r[j] < r[k]
    ensures forall pk: nat :: pk < n && OpenOn(alerts[pk], machine, kind) ==> pk in r
  {
    if n == 0 then []
    else OpenRows(alerts, machine, kind, n - 1) + if OpenOn(alerts[n - 1], machine, kind) then [n - 1] else []
  }

  /** The given rows closed, each with its publication, in order. */
  function ClosedAll(db: Db, rows: seq<nat>, reason: string, now: int): (r: Db)
    requires forall k :: 0 <= k < |rows| ==> rows[k] < |db.alerts|
    ensures |r.alerts| == |db.alerts|
  {
    if rows == [] then db
    else
      var last := |rows| - 1;
      ClosedAt(ClosedAll(db, rows[..last], reason, now), rows[last], reason, now)
  }

  lemma {:induction false} ClosedAllRows(db: Db, rows: seq<nat>, reason: string, now: int)
    requires forall k :: 0 <= k < |rows| ==> rows[k] < |db.alerts|
    requires forall j, k :: 0 <= j < k < |rows| ==> rows[j] < rows[k]
    ensures forall pk: nat :: pk < |db.alerts| ==>
              ClosedAll(db, rows, reason, now).alerts[pk] ==
              if pk in rows then Closed(db.alerts[pk], reason, now) else db.alerts[pk]
  {
    if rows != [] {
      var last := |rows| - 1;
      ClosedAllRows(db, rows[..last], reason, now);
      assert rows == rows[..last] + [rows[last]];
      assert rows[last] !in rows[..last];
    }
  }

  /** Every open alert of the kind on the machine is closed, and nothing else is touched. */
  lemma MachineAlertsClosed(db: Db, machine: Machine, kind: Kind, reason: string, now: int)
    ensures var r := ClosedAll(db, OpenRows(db.alerts, machine, kind, |db.alerts|), reason, now);
            && (UniqueOpen(db.alerts) ==> UniqueOpen(r.alerts))
            && forall pk: nat :: pk < |db.alerts| ==>
                 var was := db.alerts[pk];
                 if !was.status.Resolved? && was.customer == machine.customer && was.machine == machine.pk
                    && was.kind == kind
                 then r.alerts[pk] == was.(status := Resolved, lastSeen := now,
                                           context := was.context["resolution_reason" := reason])
                 else r.alerts[pk] == was
  {
    var rows := OpenRows(db.alerts, machine, kind, |db.alerts|);
    ClosedAllRows(db, rows, reason, now);
    var r := ClosedAll(db, rows, reason, now);
    if UniqueOpen(db.alerts) {
      forall i, j | 0 <= i < j < |r.alerts| && !r.alerts[i].status.Resolved?
        ensures !OpenFor(r.alerts[j], r.alerts[i].customer, r.alerts[i].dedup)
      {
        assert r.alerts[i] == db.alerts[i];
      }
    }
  }

  /** With unique open alerts, looking up the next listed key finds exactly the listed row. */
  lemma ListedKeyFindsItsRow(db: Db, rows: seq<nat>, i: nat, reason: string, now: int)
    requires UniqueOpen(db.alerts) && i < |rows|
    requires forall k :: 0 <= k < |rows| ==> rows[k] < |db.alerts|
    requires forall j, k :: 0 <= j < k < |rows| ==> rows[j] < rows[k]
    requires !db.alerts[rows[i]].status.Resolved?
    ensures var r, a := ClosedAll(db, rows[..i], reason, now), db.alerts[rows[i]];
            r.alerts[rows[i]] == a && FindOpen(r.alerts, a.customer, a.dedup) == Some(rows[i])
  {
    ClosedAllRows(db, rows[..i], reason, now);
    var r, a := ClosedAll(db, rows[..i], reason, now), db.alerts[rows[i]];
    assert rows[i] !in rows[..i];
    assert OpenFor(r.alerts[rows[i]], a.customer, a.dedup);
    var found := FindOpen(r.alerts, a.customer, a.dedup);
    assert OpenFor(db.alerts[found.value], a.customer, a.dedup);
  }

  lemma OneMoreClosed(db: Db, rows: seq<nat>, i: nat, reason: string, now: int)
    requires i < |rows| && forall k :: 0 <= k < |rows| ==> rows[k] < |db.alerts|
    ensures ClosedAll(db, rows[..i + 1], reason, now)
              == ClosedAt(ClosedAll(db, rows[..i], reason, now), rows[i], reason, now)
  {
    assert rows[..i + 1][..i] == rows[..i];
  }

  /** The alert tables of a deployment and the functions that change them. */
  class AlertService {
    var alerts: seq<Alert>
    var outbox: seq<Notice>

    function State(): Db
      reads this
    {
      Db(alerts, outbox)
    }

    constructor ()
      ensures State() == Db([], []) && UniqueOpen(alerts)
    {
      alerts, outbox := [], [];
    }

    /** Raises an alert: refreshes the open one with its key, or creates it. */
    method CreateOrUpdateAlert(r: Raise, now: int) returns (pk: nat, created: bool)
      requires UniqueOpen(alerts)
      modifies this
      ensures State() == Raised(old(State()), r, now) && UniqueOpen(alerts)
      ensures created == Target(old(alerts), r).None? && pk < |alerts|
      ensures OpenFor(alerts[pk], r.machine.customer, Dedup(r.machine, r.kind, r.source))
    {
      ghost var before := State();
      var found := FindOpen(alerts, r.machine.customer, Dedup(r.machine, r.kind, r.source));
      created := found.None?;
      var changed := created;
      var alert: Alert;
      if found.Some? {
        pk := found.value;
        alert := alerts[pk];
        var known := alert.severity.Rank();
        if now - alert.lastSeen >= r.cooldown {
          alert := alert.(occurrences := alert.occurrences + 1, lastSeen := now, context := alert.context + r.context);
          changed := true;
        }
        if r.severity.Rank() > known {
          alert := alert.(severity := r.severity, escalation := alert.escalation + 1);
          changed := true;
        }
        if r.score.Some? {
          alert := alert.(score := r.score);
          changed := true;
        }
        alerts := alerts[pk := alert];
      } else {
        pk := |alerts|;
        alert := Born(r, now);
        alerts := alerts + [alert];
      }
      if changed {
        outbox := outbox + [NoticeOf(pk, alert, created, alert.severity in {High, Critical})];
      }
      RaisedKeepsUnique(before, r, now);
    }

    /** Closes the open alert with a key. */
    method ResolveOpenAlert(machine: Machine, kind: Kind, source: Source, reason: string, now: int)
      returns (pk: Option<nat>)
      requires UniqueOpen(alerts)
      modifies this
      ensures State() == ResolvedOpen(old(State()), machine, kind, source, reason, now)
      ensures UniqueOpen(alerts)
      ensures pk == FindOpen(old(alerts), machine.customer, Dedup(machine, kind, source))
      ensures FindOpen(alerts, machine.customer, Dedup(machine, kind, source)).None?
    {
      pk := FindOpen(alerts, machine.customer, Dedup(machine, kind, source));
      if pk.None? {
        return;
      }
      var alert := alerts[pk.value].(status := Resolved, lastSeen := now,
                                     context := alerts[pk.value].context["resolution_reason" := reason]);
      alerts := alerts[pk.value := alert];
      outbox := outbox + [NoticeOf(pk.value, alert, false, false)];
    }

    /** Closes every open alert of a kind on a machine, one key at a time, and nothing else. */
    method ResolveMachineAlerts(machine: Machine, kind: Kind, reason: string, now: int) returns (resolved: nat)
      requires UniqueOpen(alerts)
      modifies this
      ensures UniqueOpen(alerts)
      ensures resolved == |OpenRows(old(alerts), machine, kind, |old(alerts)|)|
      ensures State() == ClosedAll(old(State()), OpenRows(old(alerts), machine, kind, |old(alerts)|), reason, now)
    {
      ghost var start := State();
      var rows := OpenRows(alerts, machine, kind, |alerts|);
      var listed := alerts;
      var keys := seq(|rows|, i requires 0 <= i < |rows| && rows[i] < |listed| => listed[rows[i]].dedup);
      resolved := 0;
      for i := 0 to |keys|
        invariant resolved == i
        invariant State() == ClosedAll(start, rows[..i], reason, now)
      {
        ListedKeyFindsItsRow(start, rows, i, reason, now);
        OneMoreClosed(start, rows, i, reason, now);
        var found := FindOpen(alerts, machine.customer, keys[i]);
        if found.Some? {
          var alert := alerts[found.value].(status := Resolved, lastSeen := now,
                                            context := alerts[found.value].context["resolution_reason" := reason]);
          alerts := alerts[found.value := alert];
          outbox := outbox + [NoticeOf(found.value, alert, false, false)];
          resolved := resolved + 1;
        }
      }
      assert rows[..|rows|] == rows;
      MachineAlertsClosed(start, machine, kind, reason, now);
    }
  }

  // ----- Whole histories -----

  /**
   * One atomic step. Close is the write of resolve_machine_alerts, which saves a row it read
   * earlier; SetStatus is a manual change, refused when it would break the constraint.
   */
  datatype Action =
    | Create(raise: Raise)
    | Resolve(machine: Machine, kind: Kind, source: Source, reason: string)
    | Close(pk: nat, reason: string)
    | SetStatus(pk: nat, status: Status)

  datatype Event = Event(at: int, action: Action)

  /** The constraint would accept the given status for a row. */
  predicate Accepts(alerts: seq<Alert>, pk: nat, status: Status)
    requires pk < |alerts|
  {
    status.Resolved? || forall i :: 0 <= i < |alerts| && i != pk ==>
        !OpenFor(alerts[i], alerts[pk].customer, alerts[pk].dedup)
  }

  function Apply(db: Db, e: Event): Db {
    match e.action
    case Create(raise) => Raised(db, raise, e.at)
    case Resolve(machine, kind, source, reason) => ResolvedOpen(db, machine, kind, source, reason, e.at)
    case Close(pk, reason) => if pk < |db.alerts| then ClosedAt(db, pk, reason, e.at) else db
    case SetStatus(pk, status) =>
      if pk < |db.alerts| && Accepts(db.alerts, pk, status)
      then db.(alerts := db.alerts[pk := db.alerts[pk].(status := status)])
      else db
  }

  function Run(db: Db, events: seq<Event>): Db {
    if events == [] then db else Apply(Run(db, events[..|events| - 1]), events[|events| - 1])
  }

  /** Raising an alert needs no help from the constraint to keep open alerts unique. */
  lemma RaisedKeepsUnique(db: Db, r: Raise, now: int)
    requires UniqueOpen(db.alerts)
    ensures UniqueOpen(Raised(db, r, now).alerts)
  {
    var after := Raised(db, r, now).alerts;
    forall i, j | 0 <= i < j < |after| && !after[i].status.Resolved?
      ensures !OpenFor(after[j], after[i].customer, after[i].dedup)
    {
      if j < |db.alerts| {
        assert !db.alerts[i].status.Resolved? ==> !OpenFor(db.alerts[j], db.alerts[i].customer, db.alerts[i].dedup);
      }
    }
  }

  lemma ApplyKeepsUnique(db: Db, e: Event)
    requires UniqueOpen(db.alerts)
    ensures UniqueOpen(Apply(db, e).alerts)
  {
    if e.action.Create? {
      RaisedKeepsUnique(db, e.action.raise, e.at);
    } else {
      var after := Apply(db, e).alerts;
      forall i, j | 0 <= i < j < |after| && !after[i].status.Resolved?
        ensures !OpenFor(after[j], after[i].customer, after[i].dedup)
      {
        assert !db.alerts[i].status.Resolved? ==> !OpenFor(db.alerts[j], db.alerts[i].customer, db.alerts[i].dedup);
      }
    }
  }

  /** At most one alert of a key is open, whatever is raised, resolved and edited in whatever order. */
  lemma {:induction false} RunKeepsUnique(db: Db, events: seq<Event>)
    requires UniqueOpen(db.alerts)
    ensures UniqueOpen(Run(db, events).alerts)
  {
    if events != [] {
      RunKeepsUnique(db, events[..|events| - 1]);
      ApplyKeepsUnique(Run(db, events[..|events| - 1]), events[|events| - 1]);
    }
  }

  /** Row a became row b, with at least c seconds for every occurrence and a rank for every escalation. */
  predicate Advances(a: Alert, b: Alert, c: nat) {
    && b.customer == a.customer && b.machine == a.machine && b.kind == a.kind && b.dedup == a.dedup
    && b.firstSeen == a.firstSeen
    && b.occurrences >= a.occurrences
    && b.lastSeen - a.lastSeen >= c * (b.occurrences - a.occurrences)
    && b.escalation >= a.escalation
    && b.severity.Rank() - a.severity.Rank() >= b.escalation - a.escalation
  }

  predicate SeenBy(db: Db, time: int) {
    forall i :: 0 <= i < |db.alerts| ==> db.alerts[i].lastSeen <= time
  }

  /** Times never decrease, and every raise of the key has a cooldown of at least c seconds. */
  ghost predicate Timely(events: seq<Event>, start: int, key: DedupKey, c: nat) {
    && (forall i :: 0 <= i < |events| ==> start <= events[i].at)
    && (forall i, j :: 0 <= i < j < |events| ==> events[i].at <= events[j].at)
    && forall i :: 0 <= i < |events| && events[i].action.Create? ==>
         var r := events[i].action.raise; Dedup(r.machine, r.kind, r.source) == key ==> r.cooldown >= c
  }

  lemma AdvancesTransitive(x: Alert, y: Alert, z: Alert, c: nat)
    requires Advances(x, y, c) && Advances(y, z, c)
    ensures Advances(x, z, c)
  {
    var m, n := y.occurrences - x.occurrences, z.occurrences - y.occurrences;
    assert c * (m + n) == c * m + c * n;
  }

  lemma RefreshedAdvances(a: Alert, r: Raise, now: int, c: nat)
    requires a.lastSeen <= now && r.cooldown >= c
    ensures Advances(a, Refreshed(a, r, now), c) && Refreshed(a, r, now).lastSeen <= now
  {
    assert c * 0 == 0 && c * 1 == c;
  }

  lemma SteadyAdvances(a: Alert, b: Alert, c: nat)
    requires b == a.(status := b.status, lastSeen := b.lastSeen, context := b.context) && a.lastSeen <= b.lastSeen
    ensures Advances(a, b, c)
  {
    assert c * 0 == 0;
  }

  lemma ApplyAdvances(db: Db, e: Event, pk: nat, c: nat)
    requires pk < |db.alerts| && SeenBy(db, e.at)
    requires e.action.Create? ==>
               var r := e.action.raise; Dedup(r.machine, r.kind, r.source) == db.alerts[pk].dedup ==> r.cooldown >= c
    ensures var after := Apply(db, e);
            |db.alerts| <= |after.alerts| && Advances(db.alerts[pk], after.alerts[pk], c) && SeenBy(after, e.at)
  {
    var after := Apply(db, e);
    var a, b := db.alerts[pk], after.alerts[pk];
    if e.action.Create? && Target(db.alerts, e.action.raise) == Some(pk) {
      RefreshedAdvances(a, e.action.raise, e.at, c);
    } else {
      SteadyAdvances(a, b, c);
    }
    if e.action.Create? && Target(db.alerts, e.action.raise).Some? {
      RefreshedAdvances(db.alerts[Target(db.alerts, e.action.raise).value], e.action.raise, e.at, 0);
    }
  }

  lemma {:induction false} RunAdvances(db: Db, events: seq<Event>, start: int, pk: nat, c: nat)
    requires pk < |db.alerts| && SeenBy(db, start) && Timely(events, start, db.alerts[pk].dedup, c)
    ensures var r := Run(db, events);
            && |db.alerts| <= |r.alerts| && Advances(db.alerts[pk], r.alerts[pk], c)
            && SeenBy(r, if events == [] then start else events[|events| - 1].at)
  {
    if events == [] {
      assert c * 0 == 0;
    } else {
      var before, last := events[..|events| - 1], events[|events| - 1];
      RunAdvances(db, before, start, pk, c);
      var middle := Run(db, before);
      ApplyAdvances(middle, last, pk, c);
      AdvancesTransitive(db.alerts[pk], middle.alerts[pk], Apply(middle, last).alerts[pk], c);
    }
  }

  lemma {:induction false} RunConcat(db: Db, first: seq<Event>, second: seq<Event>)
    ensures Run(db, first + second) == Run(Run(db, first), second)
  {
    if second == [] {
      assert first + second == first;
    } else {
      assert (first + second)[..|first + second| - 1] == first + second[..|second| - 1];
      RunConcat(db, first, second[..|second| - 1]);
    }
  }

  lemma SplitRun(db: Db, events: seq<Event>, n: nat)
    requires n < |events|
    ensures Run(db, events) == Run(Apply(Run(db, events[..n]), events[n]), events[n + 1..])
  {
    assert events[..n + 1][..n] == events[..n];
    assert events == events[..n + 1] + events[n + 1..];
    RunConcat(db, events[..n + 1], events[n + 1..]);
  }

  /** The alert created by event n of a run, as it is when the run ends. */
  lemma AlertHistory(db: Db, events: seq<Event>, n: nat, start: int, c: nat)
    requires n < |events| && events[n].action.Create? && SeenBy(Run(db, events[..n]), start)
    requires Target(Run(db, events[..n]).alerts, events[n].action.raise).None?
    requires var r := events[n].action.raise; Timely(events[n..], start, Dedup(r.machine, r.kind, r.source), c)
    ensures var pk := |Run(db, events[..n]).alerts|;
            var r := events[n].action.raise;
            && pk < |Run(db, events).alerts|
            && var a := Run(db, events).alerts[pk];
            && a.dedup == Dedup(r.machine, r.kind, r.source)
            && a.firstSeen == events[n].at
            && a.lastSeen - a.firstSeen >= c * (a.occurrences - 1)
            && r.severity.Rank() + a.escalation <= a.severity.Rank() <= 3
  {
    var before, rest, r := Run(db, events[..n]), events[n + 1..], events[n].action.raise;
    var born := Raised(before, r, events[n].at);
    SplitRun(db, events, n);
    BornIsNewest(before, r, events[n].at, start);
    RestIsTimely(events, n, start, Dedup(r.machine, r.kind, r.source), c);
    RunAdvances(born, rest, events[n].at, |before.alerts|, c);
  }

  lemma BornIsNewest(db: Db, r: Raise, now: int, start: int)
    requires Target(db.alerts, r).None? && SeenBy(db, start) && start <= now
    ensures var born := Raised(db, r, now);
            && |born.alerts| == |db.alerts| + 1 && born.alerts[|db.alerts|] == Born(r, now) && SeenBy(born, now)
  {
  }

  lemma RestIsTimely(events: seq<Event>, n: nat, start: int, key: DedupKey, c: nat)
    requires n < |events| && Timely(events[n..], start, key, c)
    ensures start <= events[n].at && Timely(events[n + 1..], events[n].at, key, c)
  {
    var rest := events[n + 1..];
    assert events[n..][0] == events[n];
    assert forall i :: 0 <= i < |rest| ==> rest[i] == events[n..][i + 1];
  }
}
