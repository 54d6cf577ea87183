/**
 * Serial dispatch: one dispatcher at a time, whose calls of deliver_notification do not
 * overlap. Proved here are the cooldown bound on what is sent, and that the bounded batches
 * cannot starve a delivery that is due.
 */
module DeliveryDispatch {
  import opened Common
  import opened Delivery

  datatype Step =
    | Deliver(id: nat, call: Call)
    | Crash(id: nat, now: int, clock: int)
    | Recover(now: int)
    | Queue(alert: AlertInfo, kind: EventType, now: int)
    | Mark(now: int)
    | Round(now: int, ids: seq<nat>, calls: seq<Call>)

  predicate Possible(db: Db, step: Step) {
    match step
    case Deliver(id, _) => id < |db.rows|
    case Crash(id, _, _) => id < |db.rows|
    case Round(_, ids, calls) => |calls| == |ids| && forall k :: 0 <= k < |ids| ==> ids[k] < |db.rows|
    case _ => true
  }

  /** One step; a crash is a worker that dies between its claim and the outcome. */
  function Next(db: Db, step: Step, timeout: nat): (r: Db)
    requires WellFormed(db)
    ensures WellFormed(r) && |db.rows| <= |r.rows|
  {
    if !Possible(db, step) then db
    else
      match step
      case Deliver(id, call) => Delivered(db, id, call)
      case Crash(id, now, clock) => Claim(db, id, now, clock)
      case Recover(now) => Recovered(db, now, timeout)
      case Queue(alert, kind, now) => Queued(db, alert, kind, now)
      case Mark(now) => Marked(db, now)
      case Round(now, ids, calls) => Dispatched(db, now, timeout, ids, calls)
  }

  function Run(db: Db, steps: seq<Step>, timeout: nat): (r: Db)
    requires WellFormed(db)
    ensures WellFormed(r)
    decreases steps
  {
    if steps == [] then db else Run(Next(db, steps[0], timeout), steps[1..], timeout)
  }

  // ----- Cooldown -----

  function SentAt(db: Db, i: nat): int
    requires i < |db.rows|
  {
    if db.rows[i].sentAt.Some? then db.rows[i].sentAt.value else 0
  }

  /** Deliveries i and j are two of one preference and one alert. */
  predicate OneStream(db: Db, i: nat, j: nat)
    requires WellFormed(db) && i < |db.rows| && j < |db.rows|
  {
    && i != j
    && db.rows[i].preference == db.rows[j].preference
    && db.events[db.rows[i].event].alertKey.Some?
    && db.events[db.rows[i].event].alertKey == db.events[db.rows[j].event].alertKey
  }

  /** Both were sent. */
  predicate SameStream(db: Db, i: nat, j: nat)
    requires WellFormed(db) && i < |db.rows| && j < |db.rows|
  {
    OneStream(db, i, j) && db.rows[i].status.Sent? && db.rows[j].status.Sent?
  }

  function SeverityOf(db: Db, i: nat): Severity
    requires WellFormed(db) && i < |db.rows|
  {
    db.events[db.rows[i].event].severity
  }

  /** Two deliveries of one stream within a cooldown are a critical one escalating a lesser one. */
  ghost predicate CooldownKept(db: Db)
    requires WellFormed(db)
  {
    forall i: nat, j: nat | i < |db.rows| && j < |db.rows| && SameStream(db, i, j) ::
      SentAt(db, i) <= SentAt(db, j) <= SentAt(db, i) + db.preferences[db.rows[i].preference].cooldown
      ==> SentAt(db, i) < SentAt(db, j) && !SeverityOf(db, i).Critical? && SeverityOf(db, j).Critical?
  }

  /** Everything marked SENT carries a send time, none after the given one. */
  predicate SentBy(db: Db, time: int) {
    forall i :: 0 <= i < |db.rows| && db.rows[i].status.Sent? ==>
      db.rows[i].sentAt.Some? && db.rows[i].sentAt.value <= time
  }

  /** The calls read ever later times. */
  predicate CallsAdvance(calls: seq<Call>, time: int) {
    calls == [] || (calls[0].now > time && CallsAdvance(calls[1..], calls[0].now))
  }

  function LastNow(calls: seq<Call>, time: int): int {
    if calls == [] then time else calls[|calls| - 1].now
  }

  /** The latest reading of the steps so far, after one more. */
  function After(step: Step, time: int): int {
    match step
    case Deliver(_, call) => call.now
    case Round(_, _, calls) => LastNow(calls, time)
    case _ => time
  }

  /** The deliveries of the run, those inside its rounds included, read ever later times. */
  predicate Advancing(steps: seq<Step>, time: int) {
    steps == [] ||
    ((match steps[0]
      case Deliver(_, call) => call.now > time
      case Round(_, _, calls) => CallsAdvance(calls, time)
      case _ => true)
     && Advancing(steps[1..], After(steps[0], time)))
  }

  predicate NoRounds(steps: seq<Step>) {
    forall k :: 0 <= k < |steps| ==> !steps[k].Round?
  }

  /** The one earlier delivery that may share the window with a delivery about to be sent. */
  lemma WindowHoldsOneLesser(db: Db, id: nat, now: int, i: nat)
    requires WellFormed(db) && CooldownKept(db) && id < |db.rows| && i < |db.rows|
    requires SentBy(db, now) && Claimable(db, id, now) && SentBefore(db, id, now, i)
    ensures !SeverityOf(db, i).Critical? && SeverityOf(db, id).Critical?
  {
    var last := Latest(db, id, now, |db.rows|).value;
    if i != last {
      assert SameStream(db, i, last);
      assert SentAt(db, i) <= SentAt(db, last) <= SentAt(db, i) + db.preferences[db.rows[i].preference].cooldown;
    }
  }

  lemma DeliverKeepsCooldown(db: Db, id: nat, call: Call, time: int)
    requires WellFormed(db) && CooldownKept(db) && SentBy(db, time) && id < |db.rows| && call.now > time
    ensures var r := Delivered(db, id, call); CooldownKept(r) && SentBy(r, call.now)
  {
    var r := Delivered(db, id, call);
    forall i: nat, j: nat | i < |r.rows| && j < |r.rows| && SameStream(r, i, j)
      && SentAt(r, i) <= SentAt(r, j) <= SentAt(r, i) + r.preferences[r.rows[i].preference].cooldown
      ensures SentAt(r, i) < SentAt(r, j) && !SeverityOf(r, i).Critical? && SeverityOf(r, j).Critical?
    {
      if i != id && j != id {
        assert SameStream(db, i, j);
      } else if r.rows[id] != db.rows[id] {
        assert r.rows[id].sentAt == Some(call.now);
        assert j == id;
        assert SentBefore(db, id, call.now, i);
        WindowHoldsOneLesser(db, id, call.now, i);
      } else {
        assert SameStream(db, i, j);
      }
    }
  }

  lemma StepKeepsCooldown(db: Db, step: Step, timeout: nat, time: int)
    requires WellFormed(db) && CooldownKept(db) && SentBy(db, time) && Advancing([step], time) && !step.Round?
    ensures var r := Next(db, step, timeout); CooldownKept(r) && SentBy(r, After(step, time))
  {
    var r := Next(db, step, timeout);
    if step.Deliver? {
      if step.id < |db.rows| {
        DeliverKeepsCooldown(db, step.id, step.call, time);
      }
    } else {
      assert |db.rows| <= |r.rows|;
      forall i: nat | i < |r.rows| && r.rows[i].status.Sent?
        ensures i < |db.rows| && r.rows[i] == db.rows[i] && SeverityOf(r, i) == SeverityOf(db, i)
        ensures r.events[r.rows[i].event].alertKey == db.events[db.rows[i].event].alertKey
      {
        if step.Queue? && i < |db.rows| {
          assert r.rows[..|db.rows|][i] == r.rows[i];
          assert r.events[..|db.events|][r.rows[i].event] == r.events[r.rows[i].event];
        }
      }
      assert forall i: nat, j: nat :: i < |r.rows| && j < |r.rows| && SameStream(r, i, j) ==> SameStream(db, i, j);
    }
  }

  /** Delivery p of the stream of d was sent at most a cooldown before now, and none of them was sent after it. */
  ghost predicate IsLastInWindow(db: Db, id: nat, now: int, p: nat)
    requires WellFormed(db) && id < |db.rows| && p < |db.rows|
  {
    && InWindow(db, id, now, p)
    && forall q: nat :: q < |db.rows| && InWindow(db, id, now, q) ==>
         SentAt(db, q) < SentAt(db, p) || (SentAt(db, q) == SentAt(db, p) && q <= p)
  }

  predicate InWindow(db: Db, id: nat, now: int, p: nat)
    requires WellFormed(db) && id < |db.rows| && p < |db.rows|
  {
    && OneStream(db, id, p) && db.rows[p].status.Sent?
    && SentAt(db, p) >= now - db.preferences[db.rows[id].preference].cooldown
  }

  /**
   * The cooldown stops a delivery exactly when the last of its stream that was sent in the window is not a
   * lesser one that a critical delivery escalates.
   */
  lemma SuppressedExactlyByTheLast(db: Db, id: nat, now: int)
    requires WellFormed(db) && id < |db.rows|
    requires forall i :: 0 <= i < |db.rows| && db.rows[i].status.Sent? ==> db.rows[i].sentAt.Some?
    ensures CooldownSuppresses(db, id, now)
       <==> exists p :: 0 <= p < |db.rows| && IsLastInWindow(db, id, now, p)
              && !(SeverityOf(db, id).Critical? && !SeverityOf(db, p).Critical?)
  {
    var last := Latest(db, id, now, |db.rows|);
    assert forall q: nat :: q < |db.rows| ==> (InWindow(db, id, now, q) <==> SentBefore(db, id, now, q));
    if last.Some? {
      LatestIsLast(db, id, now, |db.rows|);
      assert IsLastInWindow(db, id, now, last.value);
      assert forall p :: 0 <= p < |db.rows| && IsLastInWindow(db, id, now, p) ==> p == last.value;
    }
  }

  lemma {:induction false} LatestIsLast(db: Db, id: nat, now: int, n: nat)
    requires WellFormed(db) && id < |db.rows| && n <= |db.rows| && Latest(db, id, now, n).Some?
    ensures var last := Latest(db, id, now, n).value;
            forall q :: last < q < n && SentBefore(db, id, now, q) ==>
              db.rows[q].sentAt.value < db.rows[last].sentAt.value
  {
    if n > 0 && Latest(db, id, now, n - 1).Some? {
      LatestIsLast(db, id, now, n - 1);
    }
  }

  /** So a critical delivery is let through when everything sent in its window is below critical. */
  lemma EscalationPasses(db: Db, id: nat, now: int)
    requires WellFormed(db) && id < |db.rows| && SeverityOf(db, id).Critical?
    requires forall i :: 0 <= i < |db.rows| && db.rows[i].status.Sent? ==> db.rows[i].sentAt.Some?
    requires forall p: nat :: p < |db.rows| && InWindow(db, id, now, p) ==> !SeverityOf(db, p).Critical?
    requires db.rows[id].status.Waiting() && Due(db.rows[id], now)
    ensures Claimable(db, id, now)
  {
    SuppressedExactlyByTheLast(db, id, now);
  }

  // ----- Rounds are serial runs -----

  function Deliveries(ids: seq<nat>, calls: seq<Call>): seq<Step>
    requires |calls| == |ids|
  {
    seq(|ids|, k requires 0 <= k < |ids| => Deliver(ids[k], calls[k]))
  }

  lemma DeliveriesSplit(ids: seq<nat>, calls: seq<Call>)
    requires |calls| == |ids| > 0
    ensures var last := |ids| - 1;
            Deliveries(ids, calls) == Deliveries(ids[..last], calls[..last]) + [Deliver(ids[last], calls[last])]
  {
    var last := |ids| - 1;
    assert forall k :: 0 <= k < last ==> ids[..last][k] == ids[k] && calls[..last][k] == calls[k];
  }

  lemma {:induction false} RunConcat(db: Db, first: seq<Step>, second: seq<Step>, timeout: nat)
    requires WellFormed(db)
    ensures Run(db, first + second, timeout) == Run(Run(db, first, timeout), second, timeout)
    decreases first
  {
    if first == [] {
      assert first + second == second;
    } else {
      assert (first + second)[1..] == first[1..] + second;
      RunConcat(Next(db, first[0], timeout), first[1..], second, timeout);
    }
  }

  lemma SingleStep(db: Db, step: Step, timeout: nat)
    requires WellFormed(db)
    ensures Run(db, [step], timeout) == Next(db, step, timeout)
  {
    assert [step][1..] == [];
  }

  lemma {:induction false} DeliveredAllIsSerial(db: Db, ids: seq<nat>, calls: seq<Call>, timeout: nat)
    requires WellFormed(db) && |calls| == |ids| && forall k :: 0 <= k < |ids| ==> ids[k] < |db.rows|
    ensures DeliveredAll(db, ids, calls) == Run(db, Deliveries(ids, calls), timeout)
  {
    if ids != [] {
      var last := |ids| - 1;
      var first, final := Deliveries(ids[..last], calls[..last]), [Deliver(ids[last], calls[last])];
      DeliveriesSplit(ids, calls);
      DeliveredAllIsSerial(db, ids[..last], calls[..last], timeout);
      RunConcat(db, first, final, timeout);
      var before := DeliveredAll(db, ids[..last], calls[..last]);
      SingleStep(before, final[0], timeout);
    }
  }

  /** The deliveries of a round, and then its closing of events. */
  lemma DeliveriesThenMark(db: Db, now: int, ids: seq<nat>, calls: seq<Call>, timeout: nat)
    requires WellFormed(db) && Possible(db, Round(now, ids, calls))
    ensures Marked(DeliveredAll(db, ids, calls), now) == Run(db, Deliveries(ids, calls) + [Mark(now)], timeout)
  {
    DeliveredAllIsSerial(db, ids, calls, timeout);
    RunConcat(db, Deliveries(ids, calls), [Mark(now)], timeout);
    SingleStep(DeliveredAll(db, ids, calls), Mark(now), timeout);
  }

  /** A dispatch round is its recovery, its deliveries in order, and the closing of events. */
  lemma RoundIsSerial(db: Db, now: int, ids: seq<nat>, calls: seq<Call>, timeout: nat)
    requires WellFormed(db) && Possible(db, Round(now, ids, calls))
    ensures Dispatched(db, now, timeout, ids, calls)
         == Run(db, [Recover(now)] + Deliveries(ids, calls) + [Mark(now)], timeout)
  {
    var body := Deliveries(ids, calls) + [Mark(now)];
    assert [Recover(now)] + Deliveries(ids, calls) + [Mark(now)] == [Recover(now)] + body;
    assert ([Recover(now)] + body)[1..] == body;
    DeliveriesThenMark(Recovered(db, now, timeout), now, ids, calls, timeout);
  }

  // ----- Cooldown over runs of rounds -----

  function EndTime(steps: seq<Step>, time: int): int {
    if steps == [] then time else EndTime(steps[1..], After(steps[0], time))
  }

  lemma {:induction false} SinglesKeepCooldown(db: Db, steps: seq<Step>, timeout: nat, time: int)
    requires WellFormed(db) && CooldownKept(db) && SentBy(db, time) && Advancing(steps, time) && NoRounds(steps)
    ensures CooldownKept(Run(db, steps, timeout)) && SentBy(Run(db, steps, timeout), EndTime(steps, time))
    decreases steps
  {
    if steps != [] {
      StepKeepsCooldown(db, steps[0], timeout, time);
      SinglesKeepCooldown(Next(db, steps[0], timeout), steps[1..], timeout, After(steps[0], time));
    }
  }

  lemma {:induction false} DeliveriesAdvance(ids: seq<nat>, calls: seq<Call>, now: int, time: int)
    requires |calls| == |ids| && CallsAdvance(calls, time)
    ensures var steps := Deliveries(ids, calls) + [Mark(now)];
            Advancing(steps, time) && NoRounds(steps) && EndTime(steps, time) == LastNow(calls, time)
    decreases |ids|
  {
    var steps := Deliveries(ids, calls) + [Mark(now)];
    if ids == [] {
      assert steps == [Mark(now)] && steps[1..] == [];
    } else {
      DeliveriesAdvance(ids[1..], calls[1..], now, calls[0].now);
      assert steps[1..] == Deliveries(ids[1..], calls[1..]) + [Mark(now)];
      assert LastNow(calls[1..], calls[0].now) == LastNow(calls, time);
    }
  }

  lemma RoundKeepsCooldown(db: Db, step: Step, timeout: nat, time: int)
    requires WellFormed(db) && CooldownKept(db) && SentBy(db, time) && step.Round? && CallsAdvance(step.calls, time)
    ensures var r := Next(db, step, timeout); CooldownKept(r) && SentBy(r, After(step, time))
  {
    if Possible(db, step) {
      var rest := Deliveries(step.ids, step.calls) + [Mark(step.now)];
      var steps := [Recover(step.now)] + rest;
      DeliveriesAdvance(step.ids, step.calls, step.now, time);
      assert steps[1..] == rest;
      SinglesKeepCooldown(db, steps, timeout, time);
      RoundIsSerial(db, step.now, step.ids, step.calls, timeout);
      assert [Recover(step.now)] + Deliveries(step.ids, step.calls) + [Mark(step.now)] == steps;
    } else {
      CallsEndLater(step.calls, time);
    }
  }

  lemma {:induction false} CallsEndLater(calls: seq<Call>, time: int)
    requires CallsAdvance(calls, time)
    ensures LastNow(calls, time) >= time
    decreases |calls|
  {
    if calls != [] {
      CallsEndLater(calls[1..], calls[0].now);
    }
  }

  /** After any serial run, of rounds too, deliveries of one stream within a cooldown are an escalation to critical. */
  lemma {:induction false} SerialRunKeepsCooldown(db: Db, steps: seq<Step>, timeout: nat, time: int)
    requires WellFormed(db) && CooldownKept(db) && SentBy(db, time) && Advancing(steps, time)
    ensures CooldownKept(Run(db, steps, timeout))
    decreases steps
  {
    if steps != [] {
      if steps[0].Round? {
        RoundKeepsCooldown(db, steps[0], timeout, time);
      } else {
        StepKeepsCooldown(db, steps[0], timeout, time);
      }
      SerialRunKeepsCooldown(Next(db, steps[0], timeout), steps[1..], timeout, After(steps[0], time));
    }
  }

  /** So, starting from nothing sent, no window of a cooldown ever holds three sent deliveries of one stream. */
  lemma AtMostTwoPerWindow(db: Db, steps: seq<Step>, timeout: nat, time: int, i: nat, j: nat, k: nat)
    requires WellFormed(db) && (forall n :: 0 <= n < |db.rows| ==> !db.rows[n].status.Sent?) && Advancing(steps, time)
    requires var r := Run(db, steps, timeout);
             && i < |r.rows| && j < |r.rows| && k < |r.rows|
             && SameStream(r, i, j) && SameStream(r, j, k) && i != k
             && SentAt(r, i) <= SentAt(r, j) <= SentAt(r, k)
    ensures var r := Run(db, steps, timeout);
            SentAt(r, k) - SentAt(r, i) > r.preferences[r.rows[i].preference].cooldown
  {
    SerialRunKeepsCooldown(db, steps, timeout, time);
  }

  // ----- Progress -----

  /** The waiting deliveries that the due query may list before d. */
  function Ahead(db: Db, d: nat): set<nat>
    requires d < |db.rows|
  {
    set i: nat | i < |db.rows| && i != d && db.rows[i].status.Waiting() && NotAfter(db.rows[i], db.rows[d])
  }

  /** Delivery d waits for time t. */
  predicate WaitsSince(db: Db, d: nat, t: int) {
    WellFormed(db) && d < |db.rows| && db.rows[d].status.Waiting() && db.rows[d].nextAt == Some(t)
  }

  /** The row does not wait for a time up to t. */
  predicate IsBehind(row: Row, t: int) {
    row.status.Waiting() ==> row.nextAt.Some? && row.nextAt.value > t
  }

  /** A delivery that is tried after time t is no longer waiting for a time up to t. */
  lemma TriedRowMovesBehind(db: Db, id: nat, call: Call, t: int)
    requires WellFormed(db) && id < |db.rows| && t < call.now
    requires db.rows[id].status.Waiting() && Due(db.rows[id], call.now)
    ensures IsBehind(Delivered(db, id, call).rows[id], t)
  {
  }

  lemma LastIsApart(ids: seq<nat>)
    requires ids != [] && forall j, k :: 0 <= j < k < |ids| ==> ids[j] != ids[k]
    ensures ids[|ids| - 1] !in ids[..|ids| - 1]
    ensures forall x :: x in ids <==> x in ids[..|ids| - 1] || x == ids[|ids| - 1]
  {
    assert ids == ids[..|ids| - 1] + [ids[|ids| - 1]];
  }

  lemma {:induction false} TriedRowsMoveBehind(db: Db, ids: seq<nat>, calls: seq<Call>, now: int, t: int)
    requires WellFormed(db) && |calls| == |ids| && t < now
    requires forall k :: 0 <= k < |ids| ==> ids[k] < |db.rows| && Selectable(db.rows[ids[k]], now)
    requires forall k :: 0 <= k < |ids| ==> now <= calls[k].now
    requires forall j, k :: 0 <= j < k < |ids| ==> ids[j] != ids[k]
    ensures forall id :: id in ids ==> IsBehind(DeliveredAll(db, ids, calls).rows[id], t)
  {
    if ids != [] {
      var last := |ids| - 1;
      var init, id := ids[..last], ids[last];
      LastIsApart(ids);
      TriedRowsMoveBehind(db, init, calls[..last], now, t);
      TriedRowMovesBehind(DeliveredAll(db, init, calls[..last]), id, calls[last], t);
    }
  }

  function IdSet(ids: seq<nat>): set<nat> { set id | id in ids }

  lemma {:induction false} IdSetSize(ids: seq<nat>)
    ensures |IdSet(ids)| <= |ids|
    ensures (forall j, k :: 0 <= j < k < |ids| ==> ids[j] != ids[k]) ==> |IdSet(ids)| == |ids|
  {
    if ids != [] {
      var init, last := ids[..|ids| - 1], ids[|ids| - 1];
      IdSetSize(init);
      assert ids == init + [last];
      assert IdSet(ids) == IdSet(init) + {last};
    }
  }

  lemma SubsetSize(a: set<nat>, b: set<nat>)
    requires a <= b
    ensures |a| <= |b|
  {
    assert b == a + (b - a);
  }

  /** A legal round at a time after d became due. */
  ghost predicate LegalRound(db: Db, step: Step, timeout: nat, limit: nat, t: int)
    requires WellFormed(db)
  {
    && step.Round? && Possible(db, step) && t < step.now
    && IsDueBatch(Recovered(db, step.now, timeout), step.now, limit, step.ids)
    && forall k :: 0 <= k < |step.calls| ==> step.now <= step.calls[k].now
  }

  /** A full batch that misses d consists of deliveries ahead of d. */
  lemma BatchComesFromAhead(db: Db, step: Step, timeout: nat, limit: nat, d: nat, t: int)
    requires WaitsSince(db, d, t) && LegalRound(db, step, timeout, limit, t) && d !in step.ids
    ensures |step.ids| == limit && IdSet(step.ids) <= Ahead(db, d)
  {
    var recovered := Recovered(db, step.now, timeout);
    assert recovered.rows[d] == db.rows[d] && Selectable(recovered.rows[d], step.now);
    forall k | 0 <= k < |step.ids|
      ensures step.ids[k] in Ahead(db, d)
    {
      assert NotAfter(recovered.rows[step.ids[k]], recovered.rows[d]);
      assert recovered.rows[step.ids[k]] == db.rows[step.ids[k]];
    }
  }

  lemma RowAfterRound(db: Db, step: Step, timeout: nat, limit: nat, d: nat, t: int, i: nat)
    requires WaitsSince(db, d, t) && LegalRound(db, step, timeout, limit, t) && d !in step.ids && i < |db.rows|
    ensures |Next(db, step, timeout).rows| == |db.rows| && Next(db, step, timeout).rows[d] == db.rows[d]
    ensures i in Ahead(Next(db, step, timeout), d) <==> i in Ahead(db, d) && i !in step.ids
  {
    var recovered := Recovered(db, step.now, timeout);
    var r := Next(db, step, timeout);
    assert recovered.rows[d] == db.rows[d];
    assert r.rows[d] == recovered.rows[d];
    if i in step.ids {
      TriedRowsMoveBehind(recovered, step.ids, step.calls, step.now, t);
      assert r.rows[i] == DeliveredAll(recovered, step.ids, step.calls).rows[i];
    } else {
      assert r.rows[i] == recovered.rows[i];
    }
  }

  /** After a round d no longer waits for t, or exactly limit of those ahead of it are gone and none is new. */
  lemma RoundServesOrLowersAhead(db: Db, step: Step, timeout: nat, limit: nat, d: nat, t: int)
    requires WaitsSince(db, d, t) && LegalRound(db, step, timeout, limit, t)
    ensures var r := Next(db, step, timeout);
            if d in step.ids then IsBehind(r.rows[d], t)
            else
              && r.rows[d] == db.rows[d]
              && Ahead(r, d) == Ahead(db, d) - IdSet(step.ids)
              && |Ahead(r, d)| == |Ahead(db, d)| - limit
  {
    var r := Next(db, step, timeout);
    if d in step.ids {
      TriedRowsMoveBehind(Recovered(db, step.now, timeout), step.ids, step.calls, step.now, t);
    } else {
      RowAfterRound(db, step, timeout, limit, d, t, d);
      forall i: nat | i < |db.rows|
        ensures i in Ahead(r, d) <==> i in Ahead(db, d) && i !in step.ids
      {
        RowAfterRound(db, step, timeout, limit, d, t, i);
      }
      BatchComesFromAhead(db, step, timeout, limit, d, t);
      IdSetSize(step.ids);
      assert Ahead(r, d) == Ahead(db, d) - IdSet(step.ids);
    }
  }

  /** The step happens after time t; a round picks a legal batch. */
  ghost predicate Legal(db: Db, step: Step, timeout: nat, limit: nat, t: int)
    requires WellFormed(db)
  {
    match step
    case Deliver(_, call) => t < call.now
    case Crash(_, now, _) => t < now
    case Recover(now) => t < now
    case Queue(_, _, now) => t < now
    case Round(_, _, _) => LegalRound(db, step, timeout, limit, t)
    case Mark(_) => true
  }

  /**
   * Between the rounds d is tried and no longer waits for t, or it keeps its row and nothing moves
   * ahead of it: retried, recovered and new deliveries queue behind.
   */
  lemma NothingOvertakes(db: Db, step: Step, timeout: nat, limit: nat, d: nat, t: int)
    requires WaitsSince(db, d, t) && Legal(db, step, timeout, limit, t) && !step.Round?
    ensures var r := Next(db, step, timeout);
            if (step.Deliver? || step.Crash?) && step.id == d then IsBehind(r.rows[d], t)
            else r.rows[d] == db.rows[d] && Ahead(r, d) <= Ahead(db, d)
  {
    var r := Next(db, step, timeout);
    if step.Queue? {
      assert r.rows[..|db.rows|][d] == r.rows[d];
    }
    if (step.Deliver? || step.Crash?) && step.id == d {
    } else {
      forall i | i in Ahead(r, d)
        ensures i in Ahead(db, d)
      {
        if step.Queue? {
          assert i < |db.rows| ==> r.rows[..|db.rows|][i] == r.rows[i];
        } else if step.Deliver? && step.id == i && db.rows[i].status.Waiting() && Due(db.rows[i], step.call.now) {
          TriedRowMovesBehind(db, i, step.call, t);
          assert false;
        }
      }
    }
  }

  ghost predicate AllLegal(db: Db, steps: seq<Step>, timeout: nat, limit: nat, t: int)
    requires WellFormed(db)
    decreases steps
  {
    steps == [] ||
    (Legal(db, steps[0], timeout, limit, t)
     && AllLegal(Next(db, steps[0], timeout), steps[1..], timeout, limit, t))
  }

  function Rounds(steps: seq<Step>): nat {
    if steps == [] then 0 else Rounds(steps[1..]) + if steps[0].Round? then 1 else 0
  }

  /** At the end of the run or earlier, d no longer waits for a time up to t. */
  predicate MovesBehind(db: Db, steps: seq<Step>, timeout: nat, d: nat, t: int)
    requires WellFormed(db) && d < |db.rows|
    decreases steps
  {
    IsBehind(db.rows[d], t) || (steps != [] && MovesBehind(Next(db, steps[0], timeout), steps[1..], timeout, d, t))
  }

  lemma {:induction false} RoundsEatAhead(db: Db, steps: seq<Step>, timeout: nat, limit: nat, d: nat, t: int)
    requires WaitsSince(db, d, t) && AllLegal(db, steps, timeout, limit, t) && !MovesBehind(db, steps, timeout, d, t)
    ensures limit * Rounds(steps) <= |Ahead(db, d)|
    decreases steps
  {
    if steps != [] {
      var r := Next(db, steps[0], timeout);
      assert !IsBehind(r.rows[d], t);
      if steps[0].Round? {
        RoundServesOrLowersAhead(db, steps[0], timeout, limit, d, t);
      } else {
        NothingOvertakes(db, steps[0], timeout, limit, d, t);
        SubsetSize(Ahead(r, d), Ahead(db, d));
      }
      RoundsEatAhead(r, steps[1..], timeout, limit, d, t);
      assert limit * (Rounds(steps[1..]) + 1) == limit * Rounds(steps[1..]) + limit;
    }
  }

  lemma Monotone(limit: nat, p: nat, q: nat)
    requires p <= q
    ensures limit * p <= limit * q
  {
    var d := q - p;
    assert limit * q == limit * p + limit * d;
  }

  lemma QuotientBound(a: nat, limit: nat, rounds: nat)
    requires limit > 0 && rounds >= a / limit + 1
    ensures limit * rounds > a
  {
    var q := a / limit;
    assert a == limit * q + a % limit;
    Monotone(limit, q + 1, rounds);
  }

  /** A delivery that is due no longer waits for that time after ahead / limit + 1 rounds. */
  lemma DueDeliveryIsHandledInTime(db: Db, steps: seq<Step>, timeout: nat, limit: nat, d: nat, t: int)
    requires WaitsSince(db, d, t) && limit > 0 && AllLegal(db, steps, timeout, limit, t)
    requires Rounds(steps) >= |Ahead(db, d)| / limit + 1
    ensures MovesBehind(db, steps, timeout, d, t)
  {
    QuotientBound(|Ahead(db, d)|, limit, Rounds(steps));
    if !MovesBehind(db, steps, timeout, d, t) {
      RoundsEatAhead(db, steps, timeout, limit, d, t);
    }
  }
}
