/**
 * From a raised alert to its deliveries: when the transaction of a raise commits, the alert of
 * its notice is read again and a notification of it is queued.
 */
module AlertDelivery {
  import opened Common
  import Alerts
  import opened Delivery

  /** The commit hook of a notice; number stands for the alert's deduplication key. */
  function Announced(alerts: seq<Alerts.Alert>, notice: Alerts.Notice, number: nat, db: Db, now: int): (r: Db)
    requires WellFormed(db)
    ensures WellFormed(r)
  {
    if !notice.notify || notice.alert >= |alerts| then db
    else
      var a := alerts[notice.alert];
      Queued(db, AlertInfo(a.customer, number, a.severity, a.occurrences),
             if notice.created then AlertCreated else AlertUpdated, now)
  }

  /** A raise, and the hook of its notice if it leaves one. */
  function RaisedAndAnnounced(alerts: Alerts.Db, r: Alerts.Raise, number: nat, db: Db, now: int): (d: Db)
    requires WellFormed(db)
    ensures WellFormed(d)
  {
    var after := Alerts.Raised(alerts, r, now);
    if |after.outbox| == |alerts.outbox| || after.outbox == [] then db
    else Announced(after.alerts, after.outbox[|after.outbox| - 1], number, db, now)
  }

  /** The preference asks for e-mails about alerts of the severity. */
  predicate Interested(preference: Preference, customer: nat, severity: Severity) {
    && preference.customer == customer && preference.enabled && preference.email
    && preference.minimum.Rank() <= severity.Rank()
  }

  predicate KnownEvent(db: Db, customer: nat, key: EventKey) {
    exists e :: 0 <= e < |db.events| && db.events[e].customer == customer && db.events[e].key == key
  }

  /** The only delivery of the event to the preference is waiting and due at once. */
  ghost predicate DueOnce(db: Db, event: nat, p: nat, now: int) {
    exists i :: 0 <= i < |db.rows| && db.rows[i].event == event && db.rows[i].preference == p
      && db.rows[i].status.Pending? && db.rows[i].attempts == 0 && db.rows[i].nextAt == Some(now)
      && db.rows[i].sentAt.None? && db.rows[i].createdAt == now
      && forall j :: 0 <= j < |db.rows| && db.rows[j].event == event && db.rows[j].preference == p ==> j == i
  }

  /** There is one more event, and of it one due delivery for each interested preference and no other. */
  ghost predicate QueuedForAll(before: Db, after: Db, customer: nat, number: nat, severity: Severity, now: int) {
    var event := |before.events|;
    && |after.events| == event + 1 && after.events[..event] == before.events
    && after.events[event].customer == customer && after.events[event].alertKey == Some(number)
    && after.events[event].severity == severity && after.events[event].processedAt.None?
    && |before.rows| <= |after.rows| && after.rows[..|before.rows|] == before.rows
    && after.preferences == before.preferences
    && forall p: nat :: p < |before.preferences| ==>
         if Interested(before.preferences[p], customer, severity) then DueOnce(after, event, p, now)
         else forall i :: 0 <= i < |after.rows| ==> !(after.rows[i].event == event && after.rows[i].preference == p)
  }

  lemma WanterIsServed(before: Db, after: Db, alert: AlertInfo, event: nat, now: int, p: nat)
    requires p < |before.preferences| && Wants(before.preferences[p], alert)
    requires forall i :: 0 <= i < |before.rows| ==> before.rows[i].event != event
    requires after.rows == before.rows + FreshRows(before.preferences, alert, event, now, |before.preferences|)
    ensures DueOnce(after, event, p, now)
  {
    var added := FreshRows(before.preferences, alert, event, now, |before.preferences|);
    FreshRowsServeWanters(before.preferences, alert, event, now, |before.preferences|);
    var k :| 0 <= k < |added| && added[k] == FreshRow(event, p, now);
    assert after.rows[|before.rows| + k] == added[k];
    forall j | 0 <= j < |after.rows| && after.rows[j].event == event && after.rows[j].preference == p
      ensures j == |before.rows| + k
    {
      assert added[j - |before.rows|].preference == p;
    }
  }

  lemma OthersAreNotServed(before: Db, after: Db, alert: AlertInfo, event: nat, now: int, p: nat)
    requires p < |before.preferences| && !Wants(before.preferences[p], alert)
    requires forall i :: 0 <= i < |before.rows| ==> before.rows[i].event != event
    requires after.rows == before.rows + FreshRows(before.preferences, alert, event, now, |before.preferences|)
    ensures forall i :: 0 <= i < |after.rows| ==> !(after.rows[i].event == event && after.rows[i].preference == p)
  {
    var added := FreshRows(before.preferences, alert, event, now, |before.preferences|);
    FreshRowsServeWanters(before.preferences, alert, event, now, |before.preferences|);
    forall i | 0 <= i < |after.rows| && after.rows[i].event == event
      ensures after.rows[i].preference != p
    {
      assert after.rows[i] == added[i - |before.rows|] && added[i - |before.rows|] in added;
    }
  }

  lemma PreferenceIsServed(db: Db, alert: AlertInfo, kind: EventType, now: int, p: nat)
    requires WellFormed(db) && p < |db.preferences| && alert.severity.Rank() >= High.Rank()
    requires !KnownEvent(db, alert.customer, EventKey(alert.dedup, kind, alert.occurrences))
    ensures var after, event := Queued(db, alert, kind, now), |db.events|;
            if Interested(db.preferences[p], alert.customer, alert.severity) then DueOnce(after, event, p, now)
            else forall i :: 0 <= i < |after.rows| ==> !(after.rows[i].event == event && after.rows[i].preference == p)
  {
    var after := Queued(db, alert, kind, now);
    assert FindEvent(db.events, alert.customer, KeyFor(alert, kind)).None?;
    assert Interested(db.preferences[p], alert.customer, alert.severity) <==> Wants(db.preferences[p], alert);
    if Wants(db.preferences[p], alert) {
      WanterIsServed(db, after, alert, |db.events|, now, p);
    } else {
      OthersAreNotServed(db, after, alert, |db.events|, now, p);
    }
  }

  lemma NewEventIsQueuedForAll(db: Db, alert: AlertInfo, kind: EventType, now: int)
    requires WellFormed(db) && alert.severity.Rank() >= High.Rank()
    requires !KnownEvent(db, alert.customer, EventKey(alert.dedup, kind, alert.occurrences))
    ensures QueuedForAll(db, Queued(db, alert, kind, now), alert.customer, alert.dedup, alert.severity, now)
  {
    forall p: nat | p < |db.preferences|
      ensures var after, event := Queued(db, alert, kind, now), |db.events|;
              if Interested(db.preferences[p], alert.customer, alert.severity) then DueOnce(after, event, p, now)
              else forall i :: 0 <= i < |after.rows| ==>
                     !(after.rows[i].event == event && after.rows[i].preference == p)
    {
      PreferenceIsServed(db, alert, kind, now, p);
    }
    var found := FindEvent(db.events, alert.customer, KeyFor(alert, kind));
    assert found.None?;
  }

  /** The raise repeats an open alert within its cooldown, no worse and without a score. */
  predicate IsQuiet(alerts: seq<Alerts.Alert>, r: Alerts.Raise, now: int) {
    var open := Alerts.FindOpen(alerts, r.machine.customer, Alerts.Dedup(r.machine, r.kind, r.source));
    && open.Some? && now - alerts[open.value].lastSeen < r.cooldown && r.score.None?
    && r.severity.Rank() <= alerts[open.value].severity.Rank()
  }

  /** A raise of a new HIGH or CRITICAL alert puts one due delivery in the queue of everyone who wants it. */
  lemma NewSevereAlertIsQueued(alerts: Alerts.Db, r: Alerts.Raise, number: nat, db: Db, now: int)
    requires WellFormed(db) && (r.severity.High? || r.severity.Critical?)
    requires Alerts.FindOpen(alerts.alerts, r.machine.customer, Alerts.Dedup(r.machine, r.kind, r.source)).None?
    requires !KnownEvent(db, r.machine.customer, EventKey(number, AlertCreated, 1))
    ensures var queued := RaisedAndAnnounced(alerts, r, number, db, now);
            QueuedForAll(db, queued, r.machine.customer, number, r.severity, now)
  {
    Alerts.RaiseIsAnnounced(alerts, r, now);
    Alerts.RaiseSetsTheRow(alerts, r, now);
    NewEventIsQueuedForAll(db, AlertInfo(r.machine.customer, number, r.severity, 1), AlertCreated, now);
  }

  /**
   * Any raise queues its alert for everyone who wants it exactly when it is not quiet, the alert is HIGH or
   * CRITICAL afterwards, and its count was not announced before; otherwise it queues nothing.
   */
  lemma RaiseIsQueuedExactlyWhenSevereAndNew(alerts: Alerts.Db, r: Alerts.Raise, number: nat, db: Db, now: int)
    requires WellFormed(db)
    ensures var c, key := r.machine.customer, Alerts.Dedup(r.machine, r.kind, r.source);
            var before, after := Alerts.FindOpen(alerts.alerts, c, key), Alerts.Raised(alerts, r, now).alerts;
            var pk := Alerts.FindOpen(after, c, key);
            && pk.Some?
            && var a, d := after[pk.value], RaisedAndAnnounced(alerts, r, number, db, now);
            var kind := if before.None? then AlertCreated else AlertUpdated;
            if !IsQuiet(alerts.alerts, r, now) && a.severity.Rank() >= High.Rank()
               && !KnownEvent(db, c, EventKey(number, kind, a.occurrences))
            then QueuedForAll(db, d, c, number, a.severity, now)
            else d == db
  {
    Alerts.RaiseIsAnnounced(alerts, r, now);
    Alerts.RaiseSetsTheRow(alerts, r, now);
    var c, key := r.machine.customer, Alerts.Dedup(r.machine, r.kind, r.source);
    var before, after := Alerts.FindOpen(alerts.alerts, c, key), Alerts.Raised(alerts, r, now);
    var pk := Alerts.FindOpen(after.alerts, c, key).value;
    var a := after.alerts[pk];
    var kind := if before.None? then AlertCreated else AlertUpdated;
    var info := AlertInfo(c, number, a.severity, a.occurrences);
    if a.severity.Rank() >= High.Rank() && !KnownEvent(db, c, EventKey(number, kind, a.occurrences)) {
      NewEventIsQueuedForAll(db, info, kind, now);
    } else if a.severity.Rank() >= High.Rank() {
      assert FindEvent(db.events, c, KeyFor(info, kind)).Some?;
    }
  }
}
