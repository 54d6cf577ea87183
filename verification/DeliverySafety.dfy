/**
 * The delivery protocol run by any number of workers that may be slow or die.
 *
 * A world is the database together with the clock and the adapter calls in flight. Each
 * step is one atomic statement of some worker, a recovery, a new alert, or the passing of
 * time; a step that is not possible changes nothing, so every sequence of steps is a run.
 */
module DeliverySafety {
  import opened Common
  import opened Delivery

  /** An adapter call in progress, with the copies its worker took at the claim. */
  datatype InFlight = InFlight(id: nat, now: int, attempts: nat, claimedAt: int)

  /** What happened to one delivery so far; read by no statement of the program. */
  datatype History = History(claims: seq<int>, recoveries: nat)

  datatype World = World(db: Db, clock: int, calls: map<nat, InFlight>, history: seq<History>)

  datatype Step =
    | Tick(to: int)
    | Queue(alert: AlertInfo, kind: EventType)
    | Take(worker: nat, id: nat, now: int)
    | Succeed(worker: nat)
    | Fail(worker: nat)
    | Die(worker: nat)
    | Recover(now: int)
    | Mark(now: int)

  function Start(preferences: seq<Preference>, clock: int): World {
    World(Db([], [], preferences), clock, map[], [])
  }

  /** At the given time no call in flight is older than the stale timeout. */
  predicate OnTime(w: World, time: int, timeout: nat) {
    forall k :: k in w.calls ==> time <= w.calls[k].claimedAt + timeout
  }

  /**
   * One step. When prompt is set, time does not pass beyond the stale timeout of a call in
   * flight: the call has written its outcome, or its worker has died, before that.
   */
  function Next(w: World, step: Step, timeout: nat, prompt: bool): World
    requires WellFormed(w.db) && |w.history| == |w.db.rows|
  {
    match step
    case Tick(to) =>
      if to < w.clock || (prompt && !OnTime(w, to, timeout)) then w else w.(clock := to)
    case Queue(alert, kind) =>
      var db := Queued(w.db, alert, kind, w.clock);
      w.(db := db, history := w.history + seq(|db.rows| - |w.db.rows|, _ => History([], 0)))
    case Take(worker, id, now) =>
      if worker in w.calls || id >= |w.db.rows| || now > w.clock then w
      else if !Claimable(w.db, id, now) then w.(db := Claim(w.db, id, now, w.clock))
      else
        var db := Claim(w.db, id, now, w.clock);
        w.(db := db,
           calls := w.calls[worker := InFlight(id, now, db.rows[id].attempts, w.clock)],
           history := w.history[id := w.history[id].(claims := w.history[id].claims + [now])])
    case Succeed(worker) =>
      if worker !in w.calls || w.calls[worker].id >= |w.db.rows| then w
      else
        var call := w.calls[worker];
        w.(db := RecordSent(w.db, call.id, call.now, w.clock), calls := w.calls - {worker})
    case Fail(worker) =>
      if worker !in w.calls || w.calls[worker].id >= |w.db.rows| then w
      else
        var call := w.calls[worker];
        w.(db := RecordFailure(w.db, call.id, call.attempts, call.now, w.clock), calls := w.calls - {worker})
    case Die(worker) => w.(calls := w.calls - {worker})
    case Recover(now) =>
      if now > w.clock then w
      else
        w.(db := Recovered(w.db, now, timeout),
           history := seq(|w.history|, i requires 0 <= i < |w.history| =>
             if Stale(w.db.rows[i], now, timeout)
             then w.history[i].(recoveries := w.history[i].recoveries + 1)
             else w.history[i]))
    case Mark(now) => w.(db := Marked(w.db, now))
  }

  function Run(w: World, steps: seq<Step>, timeout: nat, prompt: bool): (r: World)
    requires WellFormed(w.db) && |w.history| == |w.db.rows|
    ensures WellFormed(r.db) && |r.history| == |r.db.rows|
  {
    if steps == [] then w
    else Next(Run(w, steps[..|steps| - 1], timeout, prompt), steps[|steps| - 1], timeout, prompt)
  }

  // ----- Mutual exclusion -----

  /** The row of a call in flight is still the row its worker claimed. */
  predicate Holds(w: World, call: InFlight) {
    && call.id < |w.db.rows| && call.id < |w.history|
    && var row := w.db.rows[call.id];
    && row.status.Sending? && row.attempts == call.attempts && row.updatedAt == call.claimedAt
    && |w.history[call.id].claims| > 0
    && w.history[call.id].claims[|w.history[call.id].claims| - 1] == call.now
  }

  ghost predicate Exclusive(w: World) {
    && WellFormed(w.db) && |w.history| == |w.db.rows|
    && (forall k :: k in w.calls ==> Holds(w, w.calls[k]))
    && (forall j, k :: j in w.calls && k in w.calls && j != k ==> w.calls[j].id != w.calls[k].id)
  }

  /** The step puts back in the queue a delivery whose adapter call is still in flight. */
  predicate Overtakes(w: World, step: Step, timeout: nat) {
    && step.Recover? && step.now <= w.clock
    && exists k :: k in w.calls && w.calls[k].id < |w.db.rows| && Stale(w.db.rows[w.calls[k].id], step.now, timeout)
  }

  lemma CallSurvivesStep(w: World, step: Step, timeout: nat, prompt: bool, k: nat)
    requires Exclusive(w) && !Overtakes(w, step, timeout)
    requires k in w.calls && k in Next(w, step, timeout, prompt).calls
    ensures var r := Next(w, step, timeout, prompt); r.calls[k] == w.calls[k] && Holds(r, r.calls[k])
  {
    var id := w.calls[k].id;
    assert Holds(w, w.calls[k]);
    match step
    case Queue(_, _) =>
      var r := Next(w, step, timeout, prompt);
      assert r.db.rows[id] == r.db.rows[..|w.db.rows|][id];
    case Succeed(worker) => assert worker in w.calls ==> Holds(w, w.calls[worker]);
    case Fail(worker) => assert worker in w.calls ==> Holds(w, w.calls[worker]);
    case _ =>
  }

  lemma NewCallHolds(w: World, step: Step, timeout: nat, prompt: bool, k: nat)
    requires Exclusive(w)
    requires k !in w.calls && k in Next(w, step, timeout, prompt).calls
    ensures var r := Next(w, step, timeout, prompt);
            && Holds(r, r.calls[k])
            && (forall j :: j in r.calls && j != k ==> j in w.calls && r.calls[j].id != r.calls[k].id)
  {
    assert step.Take? && step.worker == k && Claimable(w.db, step.id, step.now);
    forall j | j in w.calls
      ensures w.calls[j].id != step.id
    {
      assert Holds(w, w.calls[j]);
    }
  }

  /** A call loses its row, its lease, exactly by a recovery that overtakes it while it is in flight. */
  lemma LeaseLostExactlyByOvertaking(w: World, step: Step, timeout: nat, prompt: bool)
    requires Exclusive(w)
    ensures Exclusive(Next(w, step, timeout, prompt)) <==> !Overtakes(w, step, timeout)
  {
    var r := Next(w, step, timeout, prompt);
    if Overtakes(w, step, timeout) {
      var k :| k in w.calls && w.calls[k].id < |w.db.rows| && Stale(w.db.rows[w.calls[k].id], step.now, timeout);
      assert k in r.calls && !Holds(r, r.calls[k]);
    } else {
      forall k | k in r.calls
        ensures Holds(r, r.calls[k])
        ensures k in w.calls ==> r.calls[k] == w.calls[k]
        ensures k !in w.calls ==> forall j :: j in r.calls && j != k ==> j in w.calls && r.calls[j].id != r.calls[k].id
      {
        if k in w.calls {
          CallSurvivesStep(w, step, timeout, prompt, k);
        } else {
          NewCallHolds(w, step, timeout, prompt, k);
        }
      }
      forall j, k | j in r.calls && k in r.calls && j != k
        ensures r.calls[j].id != r.calls[k].id
      {
      }
    }
  }

  /** A prompt world stays on time and is never overtaken. */
  lemma PromptStepKeepsExclusion(w: World, step: Step, timeout: nat)
    requires Exclusive(w) && OnTime(w, w.clock, timeout)
    ensures var r := Next(w, step, timeout, true); Exclusive(r) && OnTime(r, r.clock, timeout)
  {
    forall k | k in w.calls
      ensures Holds(w, w.calls[k])
      ensures step.Recover? && step.now <= w.clock ==> !Stale(w.db.rows[w.calls[k].id], step.now, timeout)
    {
    }
    LeaseLostExactlyByOvertaking(w, step, timeout, true);
  }

  lemma {:induction false} PromptRunKeepsExclusion(w: World, steps: seq<Step>, timeout: nat)
    requires Exclusive(w) && OnTime(w, w.clock, timeout)
    ensures var r := Run(w, steps, timeout, true); Exclusive(r) && OnTime(r, r.clock, timeout)
  {
    if steps != [] {
      var before := steps[..|steps| - 1];
      PromptRunKeepsExclusion(w, before, timeout);
      PromptStepKeepsExclusion(Run(w, before, timeout, true), steps[|steps| - 1], timeout);
    }
  }

  /** In every reachable world at most one adapter call per delivery is in flight, and its row is SENDING. */
  lemma AtMostOneCallPerDelivery(preferences: seq<Preference>, clock: int, steps: seq<Step>, timeout: nat, j: nat,
                                 k: nat)
    ensures var w := Run(Start(preferences, clock), steps, timeout, true);
            && (j in w.calls ==> w.calls[j].id < |w.db.rows| && w.db.rows[w.calls[j].id].status.Sending?)
            && (j in w.calls && k in w.calls && w.calls[j].id == w.calls[k].id ==> j == k)
  {
    PromptRunKeepsExclusion(Start(preferences, clock), steps, timeout);
    var w := Run(Start(preferences, clock), steps, timeout, true);
    assert j in w.calls ==> Holds(w, w.calls[j]);
  }

  // ----- Final statuses -----

  /** The first rows of a table, up to the length of an earlier one, with their outcomes kept. */
  ghost predicate KeepsOutcomes(w: World, r: World) {
    && |w.db.rows| <= |r.db.rows|
    && forall i :: 0 <= i < |w.db.rows| && w.db.rows[i].status.Terminal() ==> r.db.rows[i] == w.db.rows[i]
  }

  lemma StepKeepsOutcomes(w: World, step: Step, timeout: nat, prompt: bool)
    requires Exclusive(w)
    ensures KeepsOutcomes(w, Next(w, step, timeout, prompt))
  {
    var r := Next(w, step, timeout, prompt);
    forall i | 0 <= i < |w.db.rows| && w.db.rows[i].status.Terminal()
      ensures i < |r.db.rows| && r.db.rows[i] == w.db.rows[i]
    {
      if step.Queue? {
        assert r.db.rows[i] == r.db.rows[..|w.db.rows|][i];
      } else if (step.Succeed? || step.Fail?) && step.worker in w.calls {
        assert Holds(w, w.calls[step.worker]);
      }
    }
  }

  /** A delivery that is SENT, FAILED or SUPPRESSED is never written again. */
  lemma {:induction false} OutcomesAreFinal(w: World, steps: seq<Step>, timeout: nat)
    requires Exclusive(w) && OnTime(w, w.clock, timeout)
    ensures KeepsOutcomes(w, Run(w, steps, timeout, true))
  {
    if steps != [] {
      var before := steps[..|steps| - 1];
      OutcomesAreFinal(w, before, timeout);
      PromptRunKeepsExclusion(w, before, timeout);
      StepKeepsOutcomes(Run(w, before, timeout, true), steps[|steps| - 1], timeout, true);
    }
  }

  ghost predicate ClosedEventsFinished(w: World)
    requires WellFormed(w.db)
  {
    forall i :: 0 <= i < |w.db.rows| && w.db.events[w.db.rows[i].event].processedAt.Some? ==>
      w.db.rows[i].status.Terminal()
  }

  lemma StepKeepsClosedEventsFinished(w: World, step: Step, timeout: nat, prompt: bool)
    requires Exclusive(w) && ClosedEventsFinished(w)
    ensures ClosedEventsFinished(Next(w, step, timeout, prompt))
  {
    var r := Next(w, step, timeout, prompt);
    StepKeepsOutcomes(w, step, timeout, prompt);
    forall i | 0 <= i < |r.db.rows| && r.db.events[r.db.rows[i].event].processedAt.Some?
      ensures r.db.rows[i].status.Terminal()
    {
      if step.Queue? && i < |w.db.rows| {
        assert r.db.rows[..|w.db.rows|][i] == r.db.rows[i];
        var e := r.db.rows[i].event;
        assert r.db.events[..|w.db.events|][e] == r.db.events[e];
      } else if step.Mark? {
        var e := w.db.rows[i].event;
        assert w.db.events[e].processedAt.None? ==> !Unfinished(w.db, e);
      }
    }
  }

  /** An event marked processed has only finished deliveries, in every reachable world. */
  lemma {:induction false} ProcessedEventsAreFinished(preferences: seq<Preference>, clock: int, steps: seq<Step>,
                                                      timeout: nat)
    ensures ClosedEventsFinished(Run(Start(preferences, clock), steps, timeout, true))
  {
    if steps != [] {
      var before := steps[..|steps| - 1];
      ProcessedEventsAreFinished(preferences, clock, before, timeout);
      PromptRunKeepsExclusion(Start(preferences, clock), before, timeout);
      var w := Run(Start(preferences, clock), before, timeout, true);
      StepKeepsClosedEventsFinished(w, steps[|steps| - 1], timeout, true);
    }
  }

  // ----- Without the timing assumption -----

  /** Some call of the delivery is in flight. */
  predicate InFlightOn(w: World, i: nat) {
    exists k :: k in w.calls && w.calls[k].id == i
  }

  predicate OneCallEach(w: World) {
    forall j, k :: j in w.calls && k in w.calls && j != k ==> w.calls[j].id != w.calls[k].id
  }

  /** The step claims a delivery of which a call is still in flight. */
  predicate Doubles(w: World, step: Step)
    requires WellFormed(w.db)
  {
    && step.Take? && step.worker !in w.calls && step.id < |w.db.rows| && step.now <= w.clock
    && Claimable(w.db, step.id, step.now) && InFlightOn(w, step.id)
  }

  /** Two calls of one delivery are in flight exactly after a claim of a delivery that is still being sent. */
  lemma ExclusionLostExactlyByDoubling(w: World, step: Step, timeout: nat, prompt: bool)
    requires WellFormed(w.db) && |w.history| == |w.db.rows| && OneCallEach(w)
    ensures OneCallEach(Next(w, step, timeout, prompt)) <==> !Doubles(w, step)
  {
    var r := Next(w, step, timeout, prompt);
    if Doubles(w, step) {
      var k :| k in w.calls && w.calls[k].id == step.id;
      assert r.calls[k].id == r.calls[step.worker].id && k != step.worker;
    }
  }

  /** The run, timely or not, leaves the row as it is. */
  predicate Untouched(w: World, steps: seq<Step>, timeout: nat, i: nat)
    requires WellFormed(w.db) && |w.history| == |w.db.rows| && i < |w.db.rows|
  {
    var rows := Run(w, steps, timeout, false).db.rows;
    i < |rows| && rows[i] == w.db.rows[i]
  }

  lemma StepKeepsUncalledOutcome(w: World, step: Step, timeout: nat, i: nat)
    requires WellFormed(w.db) && |w.history| == |w.db.rows| && i < |w.db.rows|
    requires w.db.rows[i].status.Terminal() && !InFlightOn(w, i)
    ensures var r := Next(w, step, timeout, false); i < |r.db.rows| && r.db.rows[i] == w.db.rows[i] && !InFlightOn(r, i)
  {
    var r := Next(w, step, timeout, false);
    if step.Queue? {
      assert r.db.rows[i] == r.db.rows[..|w.db.rows|][i];
    }
  }

  lemma {:induction false} RunKeepsUncalledOutcome(w: World, steps: seq<Step>, timeout: nat, i: nat)
    requires WellFormed(w.db) && |w.history| == |w.db.rows| && i < |w.db.rows|
    requires w.db.rows[i].status.Terminal() && !InFlightOn(w, i)
    ensures Untouched(w, steps, timeout, i) && !InFlightOn(Run(w, steps, timeout, false), i)
  {
    if steps != [] {
      var init := steps[..|steps| - 1];
      RunKeepsUncalledOutcome(w, init, timeout, i);
      StepKeepsUncalledOutcome(Run(w, init, timeout, false), steps[|steps| - 1], timeout, i);
    }
  }

  lemma SingleStep(w: World, step: Step, timeout: nat, prompt: bool)
    requires WellFormed(w.db) && |w.history| == |w.db.rows|
    ensures Run(w, [step], timeout, prompt) == Next(w, step, timeout, prompt)
  {
    assert [step][..0] == [];
  }

  /** A call in flight can rewrite the outcome of its delivery. */
  lemma CallRewritesOutcome(w: World, timeout: nat, i: nat, k: nat) returns (step: Step)
    requires WellFormed(w.db) && |w.history| == |w.db.rows| && i < |w.db.rows|
    requires w.db.rows[i].status.Terminal() && k in w.calls && w.calls[k].id == i
    ensures !Untouched(w, [step], timeout, i)
  {
    step := if w.db.rows[i].status.Sent? then Fail(k) else Succeed(k);
    SingleStep(w, step, timeout, false);
  }

  /** A finished delivery stays as it is over every run exactly when no call of it is in flight. */
  lemma OutcomeIsFinalExactlyWithoutCall(w: World, timeout: nat, i: nat)
    requires WellFormed(w.db) && |w.history| == |w.db.rows| && i < |w.db.rows| && w.db.rows[i].status.Terminal()
    ensures (forall steps :: Untouched(w, steps, timeout, i)) <==> !InFlightOn(w, i)
  {
    if InFlightOn(w, i) {
      var k :| k in w.calls && w.calls[k].id == i;
      var step := CallRewritesOutcome(w, timeout, i, k);
    } else {
      forall steps
        ensures Untouched(w, steps, timeout, i)
      {
        RunKeepsUncalledOutcome(w, steps, timeout, i);
      }
    }
  }

  /** A worker claims at time 0, is given up after 301 seconds, and wakes up when another has sent the delivery. */
  const LATE_RUN := [Queue(AlertInfo(0, 0, High, 1), AlertCreated), Take(0, 0, 0), Tick(301), Recover(301),
                     Take(1, 0, 301), Succeed(1), Fail(0)]

  const ONE_READER := [Preference(0, true, true, High, 300)]

  lemma OneMoreStep(w: World, steps: seq<Step>, n: nat, timeout: nat, prompt: bool)
    requires WellFormed(w.db) && |w.history| == |w.db.rows| && n < |steps|
    ensures Run(w, steps[..n + 1], timeout, prompt)
              == Next(Run(w, steps[..n], timeout, prompt), steps[n], timeout, prompt)
  {
    assert steps[..n + 1][..n] == steps[..n];
  }

  function LateDb(row: Row): Db {
    Db([row], [Event(0, EventKey(0, AlertCreated, 1), Some(0), High, None)], ONE_READER)
  }

  lemma NothingSentBefore(db: Db, now: int)
    requires WellFormed(db) && |db.rows| == 1
    ensures !CooldownSuppresses(db, 0, now)
  {
    assert forall p :: 0 <= p < 1 ==> !SentBefore(db, 0, now, p);
  }

  lemma LateRunQueues()
    ensures Next(Start(ONE_READER, 0), LATE_RUN[0], 300, false)
         == World(LateDb(FreshRow(0, 0, 0)), 0, map[], [History([], 0)])
  {
    var alert := AlertInfo(0, 0, High, 1);
    assert FreshRows(ONE_READER, alert, 0, 0, 0) == [];
    assert FreshRows(ONE_READER, alert, 0, 0, 1) == [FreshRow(0, 0, 0)];
  }

  /** A claim of the only delivery of a world. */
  lemma OnlyRowIsTaken(w: World, worker: nat, now: int)
    requires |w.db.rows| == 1 == |w.history| && WellFormed(w.db) && worker !in w.calls && now <= w.clock
    requires w.db.rows[0].status.Waiting() && Due(w.db.rows[0], now)
    ensures var row, h := w.db.rows[0], w.history[0];
            Next(w, Take(worker, 0, now), 300, false)
            == World(w.db.(rows := [row.(status := Sending, attempts := row.attempts + 1, updatedAt := w.clock)]),
                     w.clock,
                     w.calls[worker := InFlight(0, now, row.attempts + 1, w.clock)], [h.(claims := h.claims + [now])])
  {
    NothingSentBefore(w.db, now);
    assert Claimable(w.db, 0, now);
  }

  lemma OnlyRowIsRecovered(w: World, now: int)
    requires |w.db.rows| == 1 == |w.history| && WellFormed(w.db) && now <= w.clock && Stale(w.db.rows[0], now, 300)
    ensures Next(w, Recover(now), 300, false)
         == w.(db := w.db.(rows := [w.db.rows[0].(status := Retry, nextAt := Some(now), updatedAt := now)]),
               history := [w.history[0].(recoveries := w.history[0].recoveries + 1)])
  {
  }

  const TAKEN := Row(0, 0, Sending, 1, Some(0), None, 0, 0)
  const RECOVERED := Row(0, 0, Retry, 1, Some(301), None, 0, 301)
  const TAKEN_AGAIN := Row(0, 0, Sending, 2, Some(301), None, 0, 301)
  const FIRST_CALL := InFlight(0, 0, 1, 0)
  const SECOND_CALL := InFlight(0, 301, 2, 301)

  lemma LateRunUntilClaim()
    ensures Run(Start(ONE_READER, 0), LATE_RUN[..2], 300, false)
         == World(LateDb(TAKEN), 0, map[0 := FIRST_CALL], [History([0], 0)])
  {
    var start := Start(ONE_READER, 0);
    assert LATE_RUN[..0] == [] && [] + [0] == [0] && map[][0 := FIRST_CALL] == map[0 := FIRST_CALL];
    LateRunQueues();
    OneMoreStep(start, LATE_RUN, 0, 300, false);
    OnlyRowIsTaken(World(LateDb(FreshRow(0, 0, 0)), 0, map[], [History([], 0)]), 0, 0);
    OneMoreStep(start, LATE_RUN, 1, 300, false);
  }

  lemma LateRunUntilRecovery()
    ensures Run(Start(ONE_READER, 0), LATE_RUN[..4], 300, false)
         == World(LateDb(RECOVERED), 301, map[0 := FIRST_CALL], [History([0], 1)])
  {
    var start := Start(ONE_READER, 0);
    LateRunUntilClaim();
    OneMoreStep(start, LATE_RUN, 2, 300, false);
    OneMoreStep(start, LATE_RUN, 3, 300, false);
    OnlyRowIsRecovered(World(LateDb(TAKEN), 301, map[0 := FIRST_CALL], [History([0], 0)]), 301);
  }

  lemma LateRunUntilSecondClaim()
    ensures Run(Start(ONE_READER, 0), LATE_RUN[..5], 300, false)
         == World(LateDb(TAKEN_AGAIN), 301, map[0 := FIRST_CALL, 1 := SECOND_CALL], [History([0, 301], 1)])
  {
    LateRunUntilRecovery();
    OneMoreStep(Start(ONE_READER, 0), LATE_RUN, 4, 300, false);
    OnlyRowIsTaken(World(LateDb(RECOVERED), 301, map[0 := FIRST_CALL], [History([0], 1)]), 1, 301);
    assert [0] + [301] == [0, 301];
  }

  lemma LateRunUntilSent()
    ensures Run(Start(ONE_READER, 0), LATE_RUN[..6], 300, false)
         == World(LateDb(TAKEN_AGAIN.(status := Sent, sentAt := Some(301))), 301, map[0 := FIRST_CALL],
             [History([0, 301], 1)])
  {
    LateRunUntilSecondClaim();
    OneMoreStep(Start(ONE_READER, 0), LATE_RUN, 5, 300, false);
    assert map[0 := FIRST_CALL, 1 := SECOND_CALL] - {1} == map[0 := FIRST_CALL];
  }

  /** Such a run from an empty table turns a SENT delivery into a RETRY. */
  lemma LateWorkerOverwritesSent()
    ensures var sent := Run(Start(ONE_READER, 0), LATE_RUN[..6], 300, false);
            |sent.db.rows| == 1 && sent.db.rows[0].status.Sent?
    ensures var late := Run(Start(ONE_READER, 0), LATE_RUN, 300, false);
            |late.db.rows| == 1 && late.db.rows[0].status.Retry?
  {
    LateRunUntilSent();
    OneMoreStep(Start(ONE_READER, 0), LATE_RUN, 6, 300, false);
    assert LATE_RUN[..7] == LATE_RUN;
  }

  lemma StepKeepsUnique(w: World, step: Step, timeout: nat, prompt: bool)
    requires WellFormed(w.db) && |w.history| == |w.db.rows| && Unique(w.db)
    ensures Unique(Next(w, step, timeout, prompt).db)
  {
    var after := Next(w, step, timeout, prompt).db;
    if step.Queue? {
      QueuedKeepsUnique(w.db, step.alert, step.kind, w.clock);
    } else {
      assert |after.rows| == |w.db.rows| && |after.events| == |w.db.events|;
      assert forall i :: 0 <= i < |after.rows| ==>
          after.rows[i].event == w.db.rows[i].event && after.rows[i].preference == w.db.rows[i].preference;
      assert forall e :: 0 <= e < |after.events| ==>
          after.events[e].customer == w.db.events[e].customer && after.events[e].key == w.db.events[e].key;
    }
  }

  /** No run ever has two events of one key, or two deliveries of one event to one preference. */
  lemma {:induction false} RunKeepsUnique(w: World, steps: seq<Step>, timeout: nat, prompt: bool)
    requires WellFormed(w.db) && |w.history| == |w.db.rows| && Unique(w.db)
    ensures Unique(Run(w, steps, timeout, prompt).db)
  {
    if steps != [] {
      var init := steps[..|steps| - 1];
      RunKeepsUnique(w, init, timeout, prompt);
      StepKeepsUnique(Run(w, init, timeout, prompt), steps[|steps| - 1], timeout, prompt);
    }
  }
}
