/**
 * Notification deliveries: the tables, the atomic statements that change them, and the
 * service whose methods run those statements.
 *
 * A primary key is a position in its table; deliveries, events and preferences are never
 * deleted. Times are integers in seconds. Every statement is a function on the database, so
 * that whole runs can be reasoned about; the methods of the class change the tables in
 * place and are proved to do what those functions say.
 */
module Delivery {
  import opened Common

  datatype Status = Pending | Sending | Sent | Retry | Failed | Suppressed {
    /** The statuses a delivery is meant to end in. */
    predicate Terminal() { Sent? || Failed? || Suppressed? }

    /** The statuses the dispatcher looks for. */
    predicate Waiting() { Pending? || Retry? }
  }

  datatype Row = Row(
    event: nat,
    preference: nat,
    status: Status,
    attempts: nat,
    nextAt: Option<int>,
    sentAt: Option<int>,
    createdAt: int,
    updatedAt: int)

  datatype EventType = AlertCreated | AlertUpdated

  /** The injective identifier behind "dedup_key:event_type:occurrences". */
  datatype EventKey = EventKey(alert: nat, kind: EventType, occurrences: nat)

  datatype Event = Event(
    customer: nat,
    key: EventKey,
    alertKey: Option<nat>,
    severity: Severity,
    processedAt: Option<int>)

  datatype Preference = Preference(customer: nat, email: bool, enabled: bool, minimum: Severity, cooldown: nat)

  datatype Db = Db(rows: seq<Row>, events: seq<Event>, preferences: seq<Preference>)

  /** Foreign keys point at existing rows. */
  predicate WellFormed(db: Db) {
    forall i :: 0 <= i < |db.rows| ==> db.rows[i].event < |db.events| && db.rows[i].preference < |db.preferences|
  }

  /** The alert a notification is queued for. */
  datatype AlertInfo = AlertInfo(customer: nat, dedup: nat, severity: Severity, occurrences: nat)

  /** What one call of deliver_notification meets: its clock readings and the adapter's answer. */
  datatype Call = Call(now: int, claimedAt: int, doneAt: int, accepted: bool)

  /** The string deliver_notification returns. */
  datatype Answer = SENT | RETRY | FAILED | SUPPRESSED | IN_PROGRESS | NOT_DUE

  // ----- Cooldown -----

  /** Delivery p was sent for the same preference and alert inside the cooldown window before now. */
  predicate SentBefore(db: Db, id: nat, now: int, p: nat)
    requires WellFormed(db) && id < |db.rows| && p < |db.rows|
  {
    var row, previous := db.rows[id], db.rows[p];
    && p != id
    && previous.preference == row.preference
    && db.events[row.event].alertKey.Some?
    && db.events[previous.event].alertKey == db.events[row.event].alertKey
    && previous.status.Sent?
    && previous.sentAt.Some?
    && previous.sentAt.value >= now - db.preferences[row.preference].cooldown
  }

  /** Among the first n deliveries, the one sent last of those SentBefore accepts. */
  function Latest(db: Db, id: nat, now: int, n: nat): (r: Option<nat>)
    requires WellFormed(db) && id < |db.rows| && n <= |db.rows|
    ensures r.Some? ==> r.value < n && SentBefore(db, id, now, r.value)
    ensures r.None? ==> forall p :: 0 <= p < n ==> !SentBefore(db, id, now, p)
    ensures r.Some? ==> forall p :: 0 <= p < n && SentBefore(db, id, now, p) ==>
                                      db.rows[p].sentAt.value <= db.rows[r.value].sentAt.value
  {
    if n == 0 then None
    else
      var best := Latest(db, id, now, n - 1);
      if !SentBefore(db, id, now, n - 1) then best
      else if best.Some? && db.rows[best.value].sentAt.value > db.rows[n - 1].sentAt.value then best
      else Some(n - 1)
  }

  predicate CooldownSuppresses(db: Db, id: nat, now: int)
    requires WellFormed(db) && id < |db.rows|
  {
    var previous := Latest(db, id, now, |db.rows|);
    && previous.Some?
    && !(db.events[db.rows[id].event].severity.Critical?
         && db.events[db.rows[previous.value].event].severity.Rank() < Critical.Rank())
  }

  // ----- The statements of deliver_notification -----

  function AnswerOf(status: Status): Answer {
    match status
    case Sent => SENT
    case Failed => FAILED
    case Suppressed => SUPPRESSED
    case Sending => IN_PROGRESS
    case _ => RETRY
  }

  predicate Due(row: Row, now: int) {
    row.nextAt.None? || row.nextAt.value <= now
  }

  /** Whether the locked row may be handed to the adapter. */
  predicate Claimable(db: Db, id: nat, now: int)
    requires WellFormed(db) && id < |db.rows|
  {
    db.rows[id].status.Waiting() && Due(db.rows[id], now) && !CooldownSuppresses(db, id, now)
  }

  /** The claiming transaction. */
  function Claim(db: Db, id: nat, now: int, clock: int): (r: Db)
    requires WellFormed(db) && id < |db.rows|
    ensures WellFormed(r) && |r.rows| == |db.rows| && r.events == db.events && r.preferences == db.preferences
    ensures forall i :: 0 <= i < |db.rows| && i != id ==> r.rows[i] == db.rows[i]
  {
    var row := db.rows[id];
    if !row.status.Waiting() || !Due(row, now) then db
    else if CooldownSuppresses(db, id, now) then
      db.(rows := db.rows[id := row.(status := Suppressed, updatedAt := clock)])
    else
      db.(rows := db.rows[id := row.(status := Sending, attempts := row.attempts + 1, updatedAt := clock)])
  }

  /** Seconds before the next attempt after the given number of attempts. */
  function Delay(attempts: nat): (d: int)
    ensures 30 <= d <= 3600
    ensures attempts >= 1 ==> d >= 60
  {
    var e := Min(attempts, 7);
    assert e >= 1 ==> Pow2(e) == 2 * Pow2(e - 1);
    Min(3600, 30 * Pow2(e))
  }

  /** The unconditional update after the adapter raised; attempts and now are the caller's copies. */
  function RecordFailure(db: Db, id: nat, attempts: nat, now: int, clock: int): (r: Db)
    requires WellFormed(db) && id < |db.rows|
    ensures WellFormed(r) && |r.rows| == |db.rows| && r.events == db.events && r.preferences == db.preferences
    ensures forall i :: 0 <= i < |db.rows| && i != id ==> r.rows[i] == db.rows[i]
  {
    var row := db.rows[id];
    db.(rows := db.rows[id := row.(status := if attempts < 8 then Retry else Failed,
                                   nextAt := Some(now + Delay(attempts)),
                                   updatedAt := clock)])
  }

  /** The unconditional update after the adapter returned. */
  function RecordSent(db: Db, id: nat, now: int, clock: int): (r: Db)
    requires WellFormed(db) && id < |db.rows|
    ensures WellFormed(r) && |r.rows| == |db.rows| && r.events == db.events && r.preferences == db.preferences
    ensures forall i :: 0 <= i < |db.rows| && i != id ==> r.rows[i] == db.rows[i]
  {
    db.(rows := db.rows[id := db.rows[id].(status := Sent, sentAt := Some(now), updatedAt := clock)])
  }

  /** A whole call of deliver_notification that nothing interrupts. */
  function Delivered(db: Db, id: nat, call: Call): (r: Db)
    requires WellFormed(db) && id < |db.rows|
    ensures WellFormed(r) && |r.rows| == |db.rows| && r.events == db.events && r.preferences == db.preferences
    ensures forall i :: 0 <= i < |db.rows| && i != id ==> r.rows[i] == db.rows[i]
  {
    var claimed := Claim(db, id, call.now, call.claimedAt);
    if !Claimable(db, id, call.now) then claimed
    else if call.accepted then RecordSent(claimed, id, call.now, call.doneAt)
    else RecordFailure(claimed, id, claimed.rows[id].attempts, call.now, call.doneAt)
  }

  /** What such a call returns. */
  function Returned(db: Db, id: nat, call: Call): Answer
    requires WellFormed(db) && id < |db.rows|
  {
    if !db.rows[id].status.Waiting() then AnswerOf(db.rows[id].status)
    else if !Due(db.rows[id], call.now) then NOT_DUE
    else AnswerOf(Delivered(db, id, call).rows[id].status)
  }

  /** The answer tells what has become of the delivery, except that one not due yet is reported as such. */
  lemma AnswerTellsTheRow(db: Db, id: nat, call: Call)
    requires WellFormed(db) && id < |db.rows|
    ensures var was, row, answer := db.rows[id], Delivered(db, id, call).rows[id], Returned(db, id, call);
            && (answer == SENT <==> row.status.Sent?) && (answer == FAILED <==> row.status.Failed?)
            && (answer == SUPPRESSED <==> row.status.Suppressed?)
            && (answer == IN_PROGRESS <==> was.status.Sending?)
            && (answer == NOT_DUE <==> was.status.Waiting() && was.nextAt.Some? && was.nextAt.value > call.now)
            && (answer == RETRY <==> row.status.Retry? && row.attempts == was.attempts + 1)
  {
  }

  /** A call that writes its row stamps it with the time of its last write. */
  lemma WritesAreStamped(db: Db, id: nat, call: Call)
    requires WellFormed(db) && id < |db.rows|
    ensures var was, row := db.rows[id], Delivered(db, id, call).rows[id];
            row == was
            || row.updatedAt == (if row.status.Suppressed? then call.claimedAt else call.doneAt)
  {
  }

  // ----- The statements of dispatch_due_notifications -----

  predicate Stale(row: Row, now: int, timeout: nat) {
    row.status.Sending? && row.updatedAt < now - timeout
  }

  /** The bulk update of recover_stale_deliveries. */
  function Recovered(db: Db, now: int, timeout: nat): (r: Db)
    requires WellFormed(db)
    ensures WellFormed(r) && |r.rows| == |db.rows| && r.events == db.events && r.preferences == db.preferences
    ensures forall i :: 0 <= i < |db.rows| && !Stale(db.rows[i], now, timeout) ==> r.rows[i] == db.rows[i]
    ensures forall i :: 0 <= i < |db.rows| && Stale(db.rows[i], now, timeout) ==>
                          r.rows[i] == db.rows[i].(status := Retry, nextAt := Some(now), updatedAt := now)
  {
    db.(rows := seq(|db.rows|, i requires 0 <= i < |db.rows| =>
      if Stale(db.rows[i], now, timeout)
      then db.rows[i].(status := Retry, nextAt := Some(now), updatedAt := now)
      else db.rows[i]))
  }

  /** Some delivery of the event is still to be handled. */
  predicate Unfinished(db: Db, event: nat) {
    exists i :: 0 <= i < |db.rows| && db.rows[i].event == event && !db.rows[i].status.Terminal()
  }

  /** The bulk update that closes events. */
  function Marked(db: Db, now: int): (r: Db)
    requires WellFormed(db)
    ensures WellFormed(r) && r.rows == db.rows && |r.events| == |db.events| && r.preferences == db.preferences
    ensures forall e :: 0 <= e < |db.events| ==> r.events[e] == db.events[e].(processedAt := r.events[e].processedAt)
    ensures forall e :: 0 <= e < |db.events| ==>
              r.events[e].processedAt ==
              if db.events[e].processedAt.None? && !Unfinished(db, e) then Some(now) else db.events[e].processedAt
  {
    db.(events := seq(|db.events|, e requires 0 <= e < |db.events| =>
      if db.events[e].processedAt.None? && !Unfinished(db, e)
      then db.events[e].(processedAt := Some(now))
      else db.events[e]))
  }

  /** The row a due-delivery query may return. */
  predicate Selectable(row: Row, now: int) {
    row.status.Waiting() && row.nextAt.Some? && row.nextAt.value <= now
  }

  /** Row a may be listed before row b when ordering by (next_attempt_at, created_at). */
  predicate NotAfter(a: Row, b: Row) {
    && a.nextAt.Some? && b.nextAt.Some?
    && (a.nextAt.value < b.nextAt.value || (a.nextAt.value == b.nextAt.value && a.createdAt <= b.createdAt))
  }

  /** The ids are a legal answer of the due-delivery query, however ties are broken. */
  ghost predicate IsDueBatch(db: Db, now: int, limit: nat, ids: seq<nat>) {
    && |ids| <= limit
    && (forall k :: 0 <= k < |ids| ==> ids[k] < |db.rows| && Selectable(db.rows[ids[k]], now))
    && (forall j, k :: 0 <= j < k < |ids| ==> ids[j] != ids[k] && NotAfter(db.rows[ids[j]], db.rows[ids[k]]))
    && (forall i :: 0 <= i < |db.rows| && Selectable(db.rows[i], now) && i !in ids ==>
          |ids| == limit && forall k :: 0 <= k < |ids| ==> NotAfter(db.rows[ids[k]], db.rows[i]))
  }

  /** A batch lists waiting deliveries that are due, the longest due first and of those the oldest, up to the limit. */
  lemma BatchIsInOrder(db: Db, now: int, limit: nat, ids: seq<nat>)
    requires IsDueBatch(db, now, limit, ids)
    ensures |ids| <= limit
    ensures forall k :: 0 <= k < |ids| ==>
              var row := db.rows[ids[k]];
              (row.status.Pending? || row.status.Retry?) && row.nextAt.Some? && row.nextAt.value <= now
    ensures forall j, k :: 0 <= j < k < |ids| ==>
              var a, b := db.rows[ids[j]], db.rows[ids[k]];
              a.nextAt.value < b.nextAt.value || (a.nextAt == b.nextAt && !(b.createdAt < a.createdAt))
    ensures |ids| < limit ==>
              forall i | 0 <= i < |db.rows| && db.rows[i].status in {Pending, Retry} ::
                db.rows[i].nextAt.Some? && db.rows[i].nextAt.value <= now ==> i in ids
  {
    forall i | 0 <= i < |db.rows| && db.rows[i].nextAt.Some? && db.rows[i].nextAt.value <= now
      && (db.rows[i].status.Pending? || db.rows[i].status.Retry?)
      ensures Selectable(db.rows[i], now)
    {
    }
  }

  /** Delivering the ids one after the other. */
  function DeliveredAll(db: Db, ids: seq<nat>, calls: seq<Call>): (r: Db)
    requires WellFormed(db) && |calls| == |ids| && forall k :: 0 <= k < |ids| ==> ids[k] < |db.rows|
    ensures WellFormed(r) && |r.rows| == |db.rows| && r.events == db.events && r.preferences == db.preferences
    ensures forall i :: 0 <= i < |db.rows| && i !in ids ==> r.rows[i] == db.rows[i]
  {
    if ids == [] then db
    else
      var last := |ids| - 1;
      var before := DeliveredAll(db, ids[..last], calls[..last]);
      assert ids == ids[..last] + [ids[last]];
      Delivered(before, ids[last], calls[last])
  }

  /** How many of those calls return the answer. */
  function Answered(db: Db, ids: seq<nat>, calls: seq<Call>, answer: Answer): nat
    requires WellFormed(db) && |calls| == |ids| && forall k :: 0 <= k < |ids| ==> ids[k] < |db.rows|
  {
    if ids == [] then 0
    else
      var last := |ids| - 1;
      Answered(db, ids[..last], calls[..last], answer)
      + if Returned(DeliveredAll(db, ids[..last], calls[..last]), ids[last], calls[last]) == answer then 1 else 0
  }

  /** Call number k returns the answer, after the calls before it. */
  predicate AnswersAt(db: Db, ids: seq<nat>, calls: seq<Call>, k: nat, answer: Answer)
    requires WellFormed(db) && k < |ids| == |calls| && forall k :: 0 <= k < |ids| ==> ids[k] < |db.rows|
  {
    Returned(DeliveredAll(db, ids[..k], calls[..k]), ids[k], calls[k]) == answer
  }

  function Answering(db: Db, ids: seq<nat>, calls: seq<Call>, answer: Answer): set<nat>
    requires WellFormed(db) && |calls| == |ids| && forall k :: 0 <= k < |ids| ==> ids[k] < |db.rows|
  {
    set k: nat | k < |ids| && AnswersAt(db, ids, calls, k, answer)
  }

  lemma AnswersInLonger(db: Db, ids: seq<nat>, calls: seq<Call>, k: nat, answer: Answer, init: seq<nat>,
                        done: seq<Call>)
    requires WellFormed(db) && k + 1 < |ids| == |calls| && forall k :: 0 <= k < |ids| ==> ids[k] < |db.rows|
    requires init == ids[..|ids| - 1] && done == calls[..|ids| - 1]
    ensures AnswersAt(db, init, done, k, answer) == AnswersAt(db, ids, calls, k, answer)
  {
    assert init[..k] == ids[..k] && done[..k] == calls[..k];
  }

  lemma AnsweringLonger(db: Db, ids: seq<nat>, calls: seq<Call>, answer: Answer, init: seq<nat>, done: seq<Call>)
    requires WellFormed(db) && ids != [] && |calls| == |ids| && forall k :: 0 <= k < |ids| ==> ids[k] < |db.rows|
    requires init == ids[..|ids| - 1] && done == calls[..|ids| - 1]
    ensures Answering(db, init, done, answer) == Answering(db, ids, calls, answer) - {|ids| - 1}
  {
    forall k: nat | k < |init|
      ensures AnswersAt(db, init, done, k, answer) == AnswersAt(db, ids, calls, k, answer)
    {
      AnswersInLonger(db, ids, calls, k, answer, init, done);
    }
  }

  /** The count is that of the calls with the answer. */
  lemma {:induction false} AnsweredCounts(db: Db, ids: seq<nat>, calls: seq<Call>, answer: Answer)
    requires WellFormed(db) && |calls| == |ids| && forall k :: 0 <= k < |ids| ==> ids[k] < |db.rows|
    ensures Answered(db, ids, calls, answer) == |Answering(db, ids, calls, answer)|
  {
    if ids == [] {
      assert Answering(db, ids, calls, answer) == {};
    } else {
      var last := |ids| - 1;
      AnsweredCounts(db, ids[..last], calls[..last], answer);
      AnsweringLonger(db, ids, calls, answer, ids[..last], calls[..last]);
      CountOneMore(Answering(db, ids, calls, answer), last);
      LastDelivery(db, ids, calls, ids[..last], calls[..last], answer);
    }
  }

  /** Delivering one after the other ends with the last delivery. */
  lemma LastDelivery(db: Db, ids: seq<nat>, calls: seq<Call>, init: seq<nat>, done: seq<Call>, answer: Answer)
    requires WellFormed(db) && ids != [] && |calls| == |ids| && forall k :: 0 <= k < |ids| ==> ids[k] < |db.rows|
    requires init == ids[..|ids| - 1] && done == calls[..|ids| - 1]
    ensures DeliveredAll(db, ids, calls) == Delivered(DeliveredAll(db, init, done), ids[|ids| - 1], calls[|ids| - 1])
    ensures Answered(db, ids, calls, answer)
         == Answered(db, init, done, answer)
            + if Returned(DeliveredAll(db, init, done), ids[|ids| - 1], calls[|ids| - 1]) == answer then 1 else 0
  {
  }

  /** A whole dispatch round that no other dispatcher interrupts. */
  function Dispatched(db: Db, now: int, timeout: nat, ids: seq<nat>, calls: seq<Call>): (r: Db)
    requires WellFormed(db) && |calls| == |ids| && forall k :: 0 <= k < |ids| ==> ids[k] < |db.rows|
    ensures WellFormed(r) && |r.rows| == |db.rows|
  {
    Marked(DeliveredAll(Recovered(db, now, timeout), ids, calls), now)
  }

  // ----- Queueing -----

  /** The event with the given key of a customer. */
  function FindEvent(events: seq<Event>, customer: nat, key: EventKey): (r: Option<nat>)
    ensures r.Some? ==> r.value < |events| && events[r.value].customer == customer && events[r.value].key == key
    ensures r.None? ==> forall e :: 0 <= e < |events| ==> !(events[e].customer == customer && events[e].key == key)
  {
    if events == [] then None
    else
      var last := |events| - 1;
      if events[last].customer == customer && events[last].key == key then Some(last)
      else FindEvent(events[..last], customer, key)
  }

  predicate Wants(preference: Preference, alert: AlertInfo) {
    && preference.customer == alert.customer && preference.enabled && preference.email
    && alert.severity.Rank() >= preference.minimum.Rank()
  }

  function FreshRow(event: nat, preference: nat, now: int): Row {
    Row(event, preference, Pending, 0, Some(now), None, now, now)
  }

  /** One fresh delivery of an event for each of the first n preferences that want it. */
  function FreshRows(preferences: seq<Preference>, alert: AlertInfo, event: nat, now: int, n: nat): (r: seq<Row>)
    requires n <= |preferences|
    ensures forall i :: 0 <= i < |r| ==> r[i].preference < n && r[i] == FreshRow(event, r[i].preference, now)
  {
    if n == 0 then []
    else
      FreshRows(preferences, alert, event, now, n - 1)
      + if Wants(preferences[n - 1], alert) then [FreshRow(event, n - 1, now)] else []
  }

  /** A preference gets a delivery of the new event exactly when it wants it, and then only one. */
  lemma {:induction false} FreshRowsServeWanters(preferences: seq<Preference>, alert: AlertInfo, event: nat,
                                                 now: int, n: nat)
    requires n <= |preferences|
    ensures forall p :: 0 <= p < n ==>
              (Wants(preferences[p], alert)
               <==> FreshRow(event, p, now) in FreshRows(preferences, alert, event, now, n))
    ensures forall i, j :: 0 <= i < j < |FreshRows(preferences, alert, event, now, n)| ==>
              FreshRows(preferences, alert, event, now, n)[i].preference
              < FreshRows(preferences, alert, event, now, n)[j].preference
  {
    if n > 0 {
      FreshRowsServeWanters(preferences, alert, event, now, n - 1);
      var before := FreshRows(preferences, alert, event, now, n - 1);
      assert FreshRow(event, n - 1, now) !in before;
    }
  }

  /** When the loop reaches a preference it has no delivery of the new event yet. */
  lemma NotServedYet(rows: seq<Row>, preferences: seq<Preference>, alert: AlertInfo, event: nat, now: int, n: nat)
    requires n <= |preferences| && forall r :: 0 <= r < |rows| ==> rows[r].event != event
    ensures var all := rows + FreshRows(preferences, alert, event, now, n);
            !exists r :: 0 <= r < |all| && all[r].event == event && all[r].preference == n
  {
  }

  function KeyFor(alert: AlertInfo, kind: EventType): EventKey {
    EventKey(alert.dedup, kind, alert.occurrences)
  }

  function Queued(db: Db, alert: AlertInfo, kind: EventType, now: int): (r: Db)
    requires WellFormed(db)
    ensures WellFormed(r) && r.preferences == db.preferences
    ensures |db.rows| <= |r.rows| && r.rows[..|db.rows|] == db.rows
    ensures |db.events| <= |r.events| && r.events[..|db.events|] == db.events
    ensures forall i :: |db.rows| <= i < |r.rows| ==>
              r.rows[i] == FreshRow(|db.events|, r.rows[i].preference, now)
  {
    if alert.severity.Rank() < High.Rank() || FindEvent(db.events, alert.customer, KeyFor(alert, kind)).Some? then db
    else
      var event := Event(alert.customer, KeyFor(alert, kind), Some(alert.dedup), alert.severity, None);
      db.(events := db.events + [event],
          rows := db.rows + FreshRows(db.preferences, alert, |db.events|, now, |db.preferences|))
  }

  /** An alert gets an event exactly when it is at least HIGH and its key was never announced before. */
  lemma AnnouncedExactlyWhenNew(db: Db, alert: AlertInfo, kind: EventType, now: int)
    requires WellFormed(db)
    ensures |Queued(db, alert, kind, now).events| == |db.events| + 1
       <==> (alert.severity.High? || alert.severity.Critical?)
            && forall e :: 0 <= e < |db.events| ==>
                 db.events[e].customer == alert.customer ==>
                   db.events[e].key != EventKey(alert.dedup, kind, alert.occurrences)
  {
    var found := FindEvent(db.events, alert.customer, KeyFor(alert, kind));
    assert found.Some? ==> db.events[found.value].key == EventKey(alert.dedup, kind, alert.occurrences);
  }

  /** So an incident that is resolved and comes back with the same occurrence count is announced only once. */
  lemma ReopenedIncidentIsSilent(db: Db, first: AlertInfo, again: AlertInfo, kind: EventType, now: int, later: int)
    requires WellFormed(db) && first.severity.Rank() >= High.Rank()
    requires again.customer == first.customer && again.dedup == first.dedup && again.occurrences == first.occurrences
    ensures var once := Queued(db, first, kind, now); Queued(once, again, kind, later) == once
  {
    var once := Queued(db, first, kind, now);
    var found := FindEvent(db.events, first.customer, KeyFor(first, kind));
    var e := if found.Some? then found.value else |db.events|;
    assert once.events[e].customer == first.customer && once.events[e].key == KeyFor(first, kind);
  }

  /** The uniqueness constraints on events and deliveries. */
  ghost predicate Unique(db: Db) {
    && (forall i, j :: 0 <= i < j < |db.events| ==>
          !(db.events[i].customer == db.events[j].customer && db.events[i].key == db.events[j].key))
    && (forall i, j :: 0 <= i < j < |db.rows| ==>
          !(db.rows[i].event == db.rows[j].event && db.rows[i].preference == db.rows[j].preference))
  }

  lemma QueuedKeepsUnique(db: Db, alert: AlertInfo, kind: EventType, now: int)
    requires WellFormed(db) && Unique(db)
    ensures Unique(Queued(db, alert, kind, now))
  {
    FreshRowsServeWanters(db.preferences, alert, |db.events|, now, |db.preferences|);
  }

  /** The customer's notification tables and the functions that change them. */
  class NotificationService {
    var rows: seq<Row>
    var events: seq<Event>
    var preferences: seq<Preference>
    const timeout: nat

    function State(): Db
      reads this
    {
      Db(rows, events, preferences)
    }

    constructor (preferences: seq<Preference>, timeout: nat)
      ensures State() == Db([], [], preferences) && this.timeout == timeout
      ensures WellFormed(State())
    {
      this.rows, this.events, this.preferences, this.timeout := [], [], preferences, timeout;
    }

    /** Creates the event of an alert once, with one delivery per interested preference. */
    method QueueAlertNotification(alert: Option<AlertInfo>, kind: EventType, now: int) returns (event: Option<nat>)
      requires WellFormed(State())
      modifies this
      ensures alert.None? ==> State() == old(State()) && event.None?
      ensures alert.Some? ==> State() == Queued(old(State()), alert.value, kind, now)
      ensures alert.Some? ==>
                event == if alert.value.severity.Rank() < High.Rank() then None
                         else FindEvent(events, alert.value.customer, KeyFor(alert.value, kind))
    {
      if alert.None? || alert.value.severity !in {High, Critical} {
        return None;
      }
      var a := alert.value;
      event := FindEvent(events, a.customer, KeyFor(a, kind));
      if event.Some? {
        return;
      }
      event := Some(|events|);
      events := events + [Event(a.customer, KeyFor(a, kind), Some(a.dedup), a.severity, None)];
      CreateDeliveries(a, event.value, now);
    }

    /** Adds a pending delivery of a new event for every interested preference. */
    method CreateDeliveries(alert: AlertInfo, event: nat, now: int)
      requires forall r :: 0 <= r < |rows| ==> rows[r].event != event
      modifies this`rows
      ensures rows == old(rows) + FreshRows(preferences, alert, event, now, |preferences|)
    {
      ghost var added := [];
      for i := 0 to |preferences|
        invariant added == FreshRows(preferences, alert, event, now, i)
        invariant rows == old(rows) + added
      {
        if Wants(preferences[i], alert) {
          NotServedYet(old(rows), preferences, alert, event, now, i);
          if !exists r :: 0 <= r < |rows| && rows[r].event == event && rows[r].preference == i {
            rows := rows + [FreshRow(event, i, now)];
          }
          added := added + [FreshRow(event, i, now)];
        }
      }
    }

    /** Puts deliveries whose worker has been silent too long back in the queue. */
    method RecoverStaleDeliveries(now: int) returns (recovered: nat)
      requires WellFormed(State())
      modifies this`rows
      ensures State() == Recovered(old(State()), now, timeout)
      ensures recovered == |set i | 0 <= i < |old(rows)| && Stale(old(rows)[i], now, timeout)|
    {
      recovered := |set i | 0 <= i < |rows| && Stale(rows[i], now, timeout)|;
      rows := Recovered(State(), now, timeout).rows;
    }

    /** The claiming transaction; claimed tells the caller to go on to the adapter. */
    method ClaimDelivery(id: nat, now: int, clock: int) returns (answer: Answer, claimed: bool)
      requires WellFormed(State()) && id < |rows|
      modifies this`rows
      ensures State() == Claim(old(State()), id, now, clock)
      ensures claimed == Claimable(old(State()), id, now)
      ensures !claimed ==>
                answer == if old(rows[id].status).Waiting() && !Due(old(rows[id]), now) then NOT_DUE
                         else AnswerOf(rows[id].status)
    {
      var delivery := rows[id];
      answer, claimed := IN_PROGRESS, false;
      if delivery.status.Terminal() {
        answer := AnswerOf(delivery.status);
      } else if delivery.status.Sending? {
        answer := IN_PROGRESS;
      } else if delivery.nextAt.Some? && delivery.nextAt.value > now {
        answer := NOT_DUE;
      } else if CooldownSuppresses(State(), id, now) {
        rows := rows[id := delivery.(status := Suppressed, updatedAt := clock)];
        answer := SUPPRESSED;
      } else {
        rows := rows[id := delivery.(status := Sending, attempts := delivery.attempts + 1, updatedAt := clock)];
        claimed := true;
      }
    }

    /** Claims a delivery, calls the adapter and records the outcome. */
    method DeliverNotification(id: nat, call: Call) returns (answer: Answer)
      requires WellFormed(State()) && id < |rows|
      modifies this`rows
      ensures State() == Delivered(old(State()), id, call)
      ensures answer == Returned(old(State()), id, call)
      ensures Claimable(old(State()), id, call.now) && call.accepted ==>
                answer == SENT && rows[id].sentAt == Some(call.now)
      ensures Claimable(old(State()), id, call.now) && !call.accepted ==>
                answer == (if old(rows[id].attempts) >= 7 then FAILED else RETRY)
                && rows[id].nextAt == Some(call.now + Delay(old(rows[id].attempts) + 1))
    {
      var claimed: bool;
      answer, claimed := ClaimDelivery(id, call.now, call.claimedAt);
      if !claimed {
        return;
      }
      var delivery := rows[id];
      if !call.accepted {
        var delay := Min(3600, 30 * Pow2(Min(delivery.attempts, 7)));
        var retrying := delivery.attempts < 8;
        rows := rows[id := delivery.(status := if retrying then Retry else Failed,
                                     nextAt := Some(call.now + delay),
                                     updatedAt := call.doneAt)];
        return if retrying then RETRY else FAILED;
      }
      rows := rows[id := delivery.(status := Sent, sentAt := Some(call.now), updatedAt := call.doneAt)];
      return SENT;
    }

    /** One dispatch round; ids is the database's answer to the due-delivery query. */
    method DispatchDueNotifications(now: int, limit: nat, ids: seq<nat>, calls: seq<Call>)
      returns (processed: nat, sent: nat, failed: nat, recovered: nat)
      requires WellFormed(State()) && |calls| == |ids|
      requires IsDueBatch(Recovered(State(), now, timeout), now, limit, ids)
      modifies this
      ensures State() == Dispatched(old(State()), now, timeout, ids, calls)
      ensures processed == |ids| <= limit
      ensures sent == Answered(Recovered(old(State()), now, timeout), ids, calls, SENT)
      ensures failed == Answered(Recovered(old(State()), now, timeout), ids, calls, FAILED)
      ensures recovered == |set i | 0 <= i < |old(rows)| && Stale(old(rows)[i], now, timeout)|
    {
      recovered := RecoverStaleDeliveries(now);
      sent, failed := DeliverBatch(ids, calls);
      processed := |ids|;
      events := Marked(State(), now).events;
    }

    /** Delivers the ids in order and counts the answers. */
    method DeliverBatch(ids: seq<nat>, calls: seq<Call>) returns (sent: nat, failed: nat)
      requires WellFormed(State()) && |calls| == |ids| && forall k :: 0 <= k < |ids| ==> ids[k] < |rows|
      modifies this`rows
      ensures State() == DeliveredAll(old(State()), ids, calls)
      ensures sent == Answered(old(State()), ids, calls, SENT) && failed == Answered(old(State()), ids, calls, FAILED)
    {
      ghost var start := State();
      sent, failed := 0, 0;
      for k := 0 to |ids|
        invariant State() == DeliveredAll(start, ids[..k], calls[..k])
        invariant sent == Answered(start, ids[..k], calls[..k], SENT)
        invariant failed == Answered(start, ids[..k], calls[..k], FAILED)
      {
        assert ids[..k + 1][..k] == ids[..k] && calls[..k + 1][..k] == calls[..k];
        LastDelivery(start, ids[..k + 1], calls[..k + 1], ids[..k], calls[..k], SENT);
        LastDelivery(start, ids[..k + 1], calls[..k + 1], ids[..k], calls[..k], FAILED);
        var answer := DeliverNotification(ids[k], calls[k]);
        sent := sent + if answer.SENT? then 1 else 0;
        failed := failed + if answer.FAILED? then 1 else 0;
      }
      assert ids[..|ids|] == ids && calls[..|ids|] == calls;
    }
  }
}
