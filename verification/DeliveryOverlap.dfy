/**
 * The cooldown among workers that overlap. A claim looks only at what is already recorded as
 * sent, so the bound can be lost between a claim and its outcome; proved here are the exact
 * step that loses it, a run that does, and that it holds for every run in which the calls of
 * one preference and alert do not overlap, however much other calls do.
 */
module DeliveryOverlap {
  import opened Common
  import opened Delivery
  import opened DeliverySafety
  import Serial = DeliveryDispatch

  /** Times of two deliveries of one stream that the cooldown permits: far apart, or an escalation to critical. */
  predicate Apart(early: int, late: int, cooldown: nat, escalates: bool) {
    late < early || late > early + cooldown || (early < late && escalates)
  }

  predicate Escalates(db: Db, i: nat, j: nat)
    requires WellFormed(db) && i < |db.rows| && j < |db.rows|
  {
    !Serial.SeverityOf(db, i).Critical? && Serial.SeverityOf(db, j).Critical?
  }

  predicate PairKept(db: Db, i: nat, j: nat)
    requires WellFormed(db) && i < |db.rows| && j < |db.rows|
  {
    var cooldown := db.preferences[db.rows[i].preference].cooldown;
    Apart(Serial.SentAt(db, i), Serial.SentAt(db, j), cooldown, Escalates(db, i, j))
  }

  lemma PairsMakeCooldown(db: Db)
    requires WellFormed(db)
    requires forall i: nat, j: nat ::
               i < |db.rows| && j < |db.rows| && Serial.SameStream(db, i, j) ==> PairKept(db, i, j)
    ensures Serial.CooldownKept(db)
  {
    forall i: nat, j: nat | i < |db.rows| && j < |db.rows| && Serial.SameStream(db, i, j)
      ensures PairKept(db, i, j)
    {
    }
  }

  /** A send of delivery id at the given time would be too close to that of delivery j. */
  predicate TooClose(db: Db, id: nat, now: int, j: nat)
    requires WellFormed(db) && id < |db.rows| && j < |db.rows|
  {
    var cooldown := db.preferences[db.rows[id].preference].cooldown;
    && Serial.OneStream(db, id, j) && db.rows[j].status.Sent?
    && !(Apart(Serial.SentAt(db, j), now, cooldown, Escalates(db, j, id))
         && Apart(now, Serial.SentAt(db, j), cooldown, Escalates(db, id, j)))
  }

  /** The step records a send that is too close to another one recorded by now. */
  predicate Crowds(w: World, step: Step)
    requires WellFormed(w.db)
  {
    && step.Succeed? && step.worker in w.calls && w.calls[step.worker].id < |w.db.rows|
    && exists j :: 0 <= j < |w.db.rows| && TooClose(w.db, w.calls[step.worker].id, w.calls[step.worker].now, j)
  }

  // ----- The step that loses the cooldown -----

  /** Every row that is SENT after the step was so before, unless the step is the end of its call. */
  lemma SentRowsStay(w: World, step: Step, timeout: nat, prompt: bool, i: nat)
    requires WellFormed(w.db) && |w.history| == |w.db.rows|
    requires var r := Next(w, step, timeout, prompt);
             i < |r.db.rows| && r.db.rows[i].status.Sent?
    requires !(step.Succeed? && step.worker in w.calls && w.calls[step.worker].id == i)
    ensures var r := Next(w, step, timeout, prompt);
            i < |w.db.rows| && r.db.rows[i] == w.db.rows[i]
  {
    var r := Next(w, step, timeout, prompt);
    if step.Queue? && i < |w.db.rows| {
      assert r.db.rows[..|w.db.rows|][i] == r.db.rows[i];
    }
  }

  /** What identifies the stream and the severity of a delivery never changes. */
  lemma StreamStays(w: World, step: Step, timeout: nat, prompt: bool, i: nat)
    requires WellFormed(w.db) && |w.history| == |w.db.rows| && i < |w.db.rows|
    ensures var r := Next(w, step, timeout, prompt).db;
            && |w.db.rows| <= |r.rows| && r.preferences == w.db.preferences
            && r.rows[i].preference == w.db.rows[i].preference
            && r.events[r.rows[i].event].alertKey == w.db.events[w.db.rows[i].event].alertKey
            && Serial.SeverityOf(r, i) == Serial.SeverityOf(w.db, i)
  {
    var r := Next(w, step, timeout, prompt).db;
    if step.Queue? {
      assert r.rows[..|w.db.rows|][i] == r.rows[i];
      assert r.events[..|w.db.events|][r.rows[i].event] == r.events[r.rows[i].event];
    }
  }

  lemma OtherPairsStay(w: World, step: Step, timeout: nat, prompt: bool, i: nat, j: nat)
    requires WellFormed(w.db) && |w.history| == |w.db.rows| && Serial.CooldownKept(w.db)
    requires var r := Next(w, step, timeout, prompt).db;
             i < |r.rows| && j < |r.rows| && Serial.SameStream(r, i, j)
    requires !(step.Succeed? && step.worker in w.calls && w.calls[step.worker].id in {i, j})
    ensures var r := Next(w, step, timeout, prompt).db; PairKept(r, i, j)
  {
    SentRowsStay(w, step, timeout, prompt, i);
    SentRowsStay(w, step, timeout, prompt, j);
    StreamStays(w, step, timeout, prompt, i);
    StreamStays(w, step, timeout, prompt, j);
    assert Serial.SameStream(w.db, i, j);
    assert PairKept(w.db, i, j);
  }

  /** The send that a step records, against one other delivery. */
  lemma SendMeetsOther(w: World, step: Step, timeout: nat, prompt: bool, j: nat)
    requires WellFormed(w.db) && |w.history| == |w.db.rows| && j < |w.db.rows|
    requires step.Succeed? && step.worker in w.calls && w.calls[step.worker].id < |w.db.rows|
    ensures var id, now, r := w.calls[step.worker].id, w.calls[step.worker].now, Next(w, step, timeout, prompt).db;
            && |r.rows| == |w.db.rows|
            && (Serial.SameStream(r, id, j) <==> Serial.OneStream(w.db, id, j) && w.db.rows[j].status.Sent?)
            && (Serial.SameStream(r, j, id) <==> Serial.SameStream(r, id, j))
            && (Serial.SameStream(r, id, j) ==>
                  (TooClose(w.db, id, now, j) <==> !(PairKept(r, j, id) && PairKept(r, id, j))))
  {
  }

  /** The cooldown is lost exactly by a step that records a send too close to another one. */
  lemma CooldownLostExactlyByCrowding(w: World, step: Step, timeout: nat, prompt: bool)
    requires WellFormed(w.db) && |w.history| == |w.db.rows| && Serial.CooldownKept(w.db)
    ensures Serial.CooldownKept(Next(w, step, timeout, prompt).db) <==> !Crowds(w, step)
  {
    var r := Next(w, step, timeout, prompt).db;
    if Crowds(w, step) {
      var id := w.calls[step.worker].id;
      var j :| 0 <= j < |w.db.rows| && TooClose(w.db, id, w.calls[step.worker].now, j);
      SendMeetsOther(w, step, timeout, prompt, j);
      assert !(PairKept(r, j, id) && PairKept(r, id, j));
    } else {
      forall i: nat, j: nat | i < |r.rows| && j < |r.rows| && Serial.SameStream(r, i, j)
        ensures PairKept(r, i, j)
      {
        if step.Succeed? && step.worker in w.calls && w.calls[step.worker].id in {i, j} {
          SendMeetsOther(w, step, timeout, prompt, if w.calls[step.worker].id == i then j else i);
        } else {
          OtherPairsStay(w, step, timeout, prompt, i, j);
        }
      }
      PairsMakeCooldown(r);
    }
  }

  // ----- A run that loses it -----

  /** Two workers claim two deliveries of one alert before either outcome is recorded. */
  const CROWDED_RUN := [Queue(AlertInfo(0, 0, High, 1), AlertCreated), Queue(AlertInfo(0, 0, High, 2), AlertUpdated),
                        Take(0, 0, 0), Take(1, 1, 0), Succeed(0), Succeed(1)]

  const CREATED := Event(0, EventKey(0, AlertCreated, 1), Some(0), High, None)
  const UPDATED := Event(0, EventKey(0, AlertUpdated, 2), Some(0), High, None)

  function TwoRows(first: Row, second: Row): Db {
    Db([first, second], [CREATED, UPDATED], ONE_READER)
  }

  lemma CrowdedRunQueues()
    ensures Run(Start(ONE_READER, 0), CROWDED_RUN[..2], 300, true) == QUEUED
  {
    var first, second := AlertInfo(0, 0, High, 1), AlertInfo(0, 0, High, 2);
    var start, queued := Start(ONE_READER, 0), World(LateDb(FreshRow(0, 0, 0)), 0, map[], [History([], 0)]);
    assert CROWDED_RUN[..0] == [];
    assert FreshRows(ONE_READER, first, 0, 0, 0) == [] && FreshRows(ONE_READER, second, 1, 0, 0) == [];
    assert FreshRows(ONE_READER, first, 0, 0, 1) == [FreshRow(0, 0, 0)];
    assert FreshRows(ONE_READER, second, 1, 0, 1) == [FreshRow(1, 0, 0)];
    OneMoreStep(start, CROWDED_RUN, 0, 300, true);
    assert Next(start, CROWDED_RUN[0], 300, true) == queued;
    OneMoreStep(start, CROWDED_RUN, 1, 300, true);
  }

  lemma NothingSentYet(db: Db, id: nat, now: int)
    requires WellFormed(db) && id < |db.rows| && forall p :: 0 <= p < |db.rows| ==> !db.rows[p].status.Sent?
    ensures !CooldownSuppresses(db, id, now)
  {
  }

  const QUEUED := World(TwoRows(FreshRow(0, 0, 0), FreshRow(1, 0, 0)), 0, map[], [History([], 0), History([], 0)])
  const ONE_TAKEN := World(TwoRows(TAKEN, FreshRow(1, 0, 0)), 0, map[0 := FIRST_CALL],
                           [History([0], 0), History([], 0)])
  const BOTH_TAKEN := World(TwoRows(TAKEN, TAKEN.(event := 1)), 0, map[0 := FIRST_CALL, 1 := FIRST_CALL.(id := 1)],
                            [History([0], 0), History([0], 0)])

  lemma FirstIsTaken()
    ensures Next(QUEUED, Take(0, 0, 0), 300, true) == ONE_TAKEN
  {
    NothingSentYet(QUEUED.db, 0, 0);
    assert Claim(QUEUED.db, 0, 0, 0) == ONE_TAKEN.db;
    assert [] + [0] == [0] && map[][0 := FIRST_CALL] == map[0 := FIRST_CALL];
  }

  lemma SecondIsTaken()
    ensures Next(ONE_TAKEN, Take(1, 1, 0), 300, true) == BOTH_TAKEN
  {
    NothingSentYet(ONE_TAKEN.db, 1, 0);
    assert Claim(ONE_TAKEN.db, 1, 0, 0) == BOTH_TAKEN.db;
    assert [] + [0] == [0];
    assert map[0 := FIRST_CALL][1 := FIRST_CALL.(id := 1)] == BOTH_TAKEN.calls;
  }

  lemma CrowdedRunUntilFirstClaim()
    ensures Run(Start(ONE_READER, 0), CROWDED_RUN[..3], 300, true) == ONE_TAKEN
  {
    CrowdedRunQueues();
    OneMoreStep(Start(ONE_READER, 0), CROWDED_RUN, 2, 300, true);
    assert CROWDED_RUN[2] == Take(0, 0, 0);
    FirstIsTaken();
  }

  lemma CrowdedRunUntilClaims()
    ensures Run(Start(ONE_READER, 0), CROWDED_RUN[..4], 300, true) == BOTH_TAKEN
  {
    CrowdedRunUntilFirstClaim();
    OneMoreStep(Start(ONE_READER, 0), CROWDED_RUN, 3, 300, true);
    assert CROWDED_RUN[3] == Take(1, 1, 0);
    SecondIsTaken();
  }

  const BOTH_SENT := TwoRows(TAKEN.(status := Sent, sentAt := Some(0)),
                             TAKEN.(event := 1, status := Sent, sentAt := Some(0)))

  lemma BothAreSent()
    ensures Next(Next(BOTH_TAKEN, Succeed(0), 300, true), Succeed(1), 300, true).db == BOTH_SENT
  {
    var first := Next(BOTH_TAKEN, Succeed(0), 300, true);
    assert first.calls == map[1 := FIRST_CALL.(id := 1)];
  }

  lemma CrowdedRunEnds()
    ensures Run(Start(ONE_READER, 0), CROWDED_RUN, 300, true).db == BOTH_SENT
  {
    CrowdedRunUntilClaims();
    OneMoreStep(Start(ONE_READER, 0), CROWDED_RUN, 4, 300, true);
    OneMoreStep(Start(ONE_READER, 0), CROWDED_RUN, 5, 300, true);
    BothAreSent();
    assert CROWDED_RUN[..6] == CROWDED_RUN;
  }

  /** Such a run, prompt and from an empty table, sends two HIGH deliveries of one alert at the same second. */
  lemma OverlappingSendsBreakCooldown()
    ensures var r := Run(Start(ONE_READER, 0), CROWDED_RUN, 300, true).db;
            && |r.rows| == 2 && Serial.SameStream(r, 0, 1) && Serial.SentAt(r, 0) == Serial.SentAt(r, 1) == 0
            && Serial.SeverityOf(r, 0) == Serial.SeverityOf(r, 1) == High && !Serial.CooldownKept(r)
  {
    CrowdedRunEnds();
    assert Serial.SameStream(BOTH_SENT, 0, 1);
  }

  // ----- Runs that keep it -----

  /** A claim is clear when no call of its stream is in flight and it reads a time after every send of the stream. */
  predicate Clear(w: World, step: Step)
    requires WellFormed(w.db)
  {
    step.Take? && step.worker !in w.calls && step.id < |w.db.rows| && step.now <= w.clock
    && Claimable(w.db, step.id, step.now) ==>
      && (forall k :: k in w.calls && w.calls[k].id < |w.db.rows| ==> !Serial.OneStream(w.db, step.id, w.calls[k].id))
      && forall j :: 0 <= j < |w.db.rows| && Serial.OneStream(w.db, step.id, j) && w.db.rows[j].status.Sent? ==>
           Serial.SentAt(w.db, j) < step.now
  }

  /** The call came long enough after the send of j, or escalates it. */
  predicate HasRoom(db: Db, id: nat, now: int, j: nat)
    requires WellFormed(db) && id < |db.rows| && j < |db.rows|
  {
    Serial.OneStream(db, id, j) && db.rows[j].status.Sent? ==>
      && Serial.SentAt(db, j) < now
      && (now > Serial.SentAt(db, j) + db.preferences[db.rows[id].preference].cooldown || Escalates(db, j, id))
  }

  ghost predicate InTable(w: World) {
    WellFormed(w.db) && |w.history| == |w.db.rows| && forall k :: k in w.calls ==> w.calls[k].id < |w.db.rows|
  }

  ghost predicate LanesApart(w: World)
    requires InTable(w)
  {
    forall k, l :: k in w.calls && l in w.calls && k != l ==> !Serial.OneStream(w.db, w.calls[k].id, w.calls[l].id)
  }

  ghost predicate CallsHaveRoom(w: World)
    requires InTable(w)
  {
    forall k, j: nat :: k in w.calls && j < |w.db.rows| ==> HasRoom(w.db, w.calls[k].id, w.calls[k].now, j)
  }

  predicate SendsAreTimed(db: Db) {
    forall i :: 0 <= i < |db.rows| && db.rows[i].status.Sent? ==> db.rows[i].sentAt.Some?
  }

  /** The calls in flight are of different streams, and each has room for its send. */
  ghost predicate Lanes(w: World) {
    InTable(w) && Serial.CooldownKept(w.db) && SendsAreTimed(w.db) && LanesApart(w) && CallsHaveRoom(w)
  }

  /** Of two sends of one stream inside the cooldown, the later is critical. */
  lemma LaterIsCritical(db: Db, i: nat, j: nat)
    requires WellFormed(db) && Serial.CooldownKept(db) && i < |db.rows| && j < |db.rows| && Serial.SameStream(db, i, j)
    requires Serial.SentAt(db, i) <= Serial.SentAt(db, j)
    requires Serial.SentAt(db, j) <= Serial.SentAt(db, i) + db.preferences[db.rows[i].preference].cooldown
    ensures Serial.SeverityOf(db, j).Critical?
  {
  }

  lemma ClearClaimHasRoom(w: World, step: Step, j: nat)
    requires Lanes(w) && step.Take? && step.worker !in w.calls && step.id < |w.db.rows| && step.now <= w.clock
    requires Claimable(w.db, step.id, step.now) && Clear(w, step) && j < |w.db.rows|
    ensures HasRoom(w.db, step.id, step.now, j)
  {
    if SentBefore(w.db, step.id, step.now, j) {
      var last := Latest(w.db, step.id, step.now, |w.db.rows|).value;
      if j != last {
        LaterIsCritical(w.db, j, last);
      }
    }
  }

  /** The step starts the call k. */
  predicate Starts(w: World, step: Step, k: nat)
    requires WellFormed(w.db)
  {
    && step.Take? && step.worker == k && k !in w.calls && step.id < |w.db.rows| && step.now <= w.clock
    && Claimable(w.db, step.id, step.now)
  }

  lemma CallsOfStep(w: World, step: Step, timeout: nat, prompt: bool, k: nat)
    requires InTable(w) && k in Next(w, step, timeout, prompt).calls
    ensures var call := Next(w, step, timeout, prompt).calls[k];
            if Starts(w, step, k) then call.id == step.id && call.now == step.now
            else k in w.calls && call == w.calls[k] && call.id < |w.db.rows|
  {
  }

  lemma StepKeepsLanesApart(w: World, step: Step, timeout: nat, prompt: bool)
    requires Lanes(w) && Clear(w, step)
    ensures var r := Next(w, step, timeout, prompt); InTable(r) && LanesApart(r)
  {
    var r := Next(w, step, timeout, prompt);
    forall k | k in r.calls
      ensures r.calls[k].id < |w.db.rows| <= |r.db.rows|
    {
      CallsOfStep(w, step, timeout, prompt, k);
      StreamStays(w, step, timeout, prompt, r.calls[k].id);
    }
    forall k, l | k in r.calls && l in r.calls && k != l
      ensures !Serial.OneStream(r.db, r.calls[k].id, r.calls[l].id)
    {
      CallsOfStep(w, step, timeout, prompt, k);
      CallsOfStep(w, step, timeout, prompt, l);
      StreamStays(w, step, timeout, prompt, r.calls[k].id);
      StreamStays(w, step, timeout, prompt, r.calls[l].id);
      assert !Serial.OneStream(w.db, r.calls[k].id, r.calls[l].id);
    }
  }

  lemma EndedCallWasAlone(w: World, step: Step, timeout: nat, prompt: bool, k: nat)
    requires Lanes(w) && step.Succeed? && step.worker in w.calls && k in Next(w, step, timeout, prompt).calls
    ensures var r := Next(w, step, timeout, prompt);
            && r.calls[k].id < |w.db.rows| == |r.db.rows|
            && !Serial.OneStream(r.db, r.calls[k].id, w.calls[step.worker].id)
  {
    var r := Next(w, step, timeout, prompt);
    assert k in w.calls && k != step.worker && r.calls[k] == w.calls[k];
    assert !Serial.OneStream(w.db, w.calls[k].id, w.calls[step.worker].id);
  }

  lemma RoomStays(w: World, step: Step, timeout: nat, prompt: bool, k: nat, j: nat)
    requires Lanes(w) && Clear(w, step)
    requires var r := Next(w, step, timeout, prompt); k in r.calls && r.calls[k].id < |r.db.rows| && j < |r.db.rows|
    ensures var r := Next(w, step, timeout, prompt); HasRoom(r.db, r.calls[k].id, r.calls[k].now, j)
  {
    var r := Next(w, step, timeout, prompt);
    if step.Succeed? && step.worker in w.calls && w.calls[step.worker].id == j {
      EndedCallWasAlone(w, step, timeout, prompt, k);
    } else if r.db.rows[j].status.Sent? {
      CallsOfStep(w, step, timeout, prompt, k);
      SentRowsStay(w, step, timeout, prompt, j);
      StreamStays(w, step, timeout, prompt, r.calls[k].id);
      StreamStays(w, step, timeout, prompt, j);
      if Starts(w, step, k) {
        ClearClaimHasRoom(w, step, j);
      }
      assert HasRoom(w.db, r.calls[k].id, r.calls[k].now, j);
    }
  }

  lemma RoomMeansNoCrowding(w: World, step: Step)
    requires Lanes(w)
    ensures !Crowds(w, step)
  {
    if step.Succeed? && step.worker in w.calls {
      var call := w.calls[step.worker];
      forall j | 0 <= j < |w.db.rows|
        ensures !TooClose(w.db, call.id, call.now, j)
      {
        assert HasRoom(w.db, call.id, call.now, j);
      }
    }
  }

  lemma StepKeepsLanes(w: World, step: Step, timeout: nat, prompt: bool)
    requires Lanes(w) && Clear(w, step)
    ensures Lanes(Next(w, step, timeout, prompt))
  {
    var r := Next(w, step, timeout, prompt);
    StepKeepsLanesApart(w, step, timeout, prompt);
    forall k, j: nat | k in r.calls && j < |r.db.rows|
      ensures HasRoom(r.db, r.calls[k].id, r.calls[k].now, j)
    {
      RoomStays(w, step, timeout, prompt, k, j);
    }
    RoomMeansNoCrowding(w, step);
    CooldownLostExactlyByCrowding(w, step, timeout, prompt);
  }

  /** Every claim of the run is clear. */
  ghost predicate AllClear(w: World, steps: seq<Step>, timeout: nat, prompt: bool)
    requires WellFormed(w.db) && |w.history| == |w.db.rows|
  {
    forall n :: 0 <= n < |steps| ==> Clear(Run(w, steps[..n], timeout, prompt), steps[n])
  }

  /** Workers may overlap, and be late or die: while no two calls of one stream overlap, the cooldown is kept. */
  lemma {:induction false} ClearRunKeepsCooldown(w: World, steps: seq<Step>, timeout: nat, prompt: bool)
    requires Lanes(w) && AllClear(w, steps, timeout, prompt)
    ensures Lanes(Run(w, steps, timeout, prompt))
  {
    if steps != [] {
      var init := steps[..|steps| - 1];
      assert forall n :: 0 <= n < |init| ==> init[..n] == steps[..n] && init[n] == steps[n];
      ClearRunKeepsCooldown(w, init, timeout, prompt);
      StepKeepsLanes(Run(w, init, timeout, prompt), steps[|steps| - 1], timeout, prompt);
    }
  }

  lemma AmongThree(db: Db, i: nat, j: nat, k: nat)
    requires WellFormed(db) && Serial.CooldownKept(db) && i < |db.rows| && j < |db.rows| && k < |db.rows| && i != k
    requires Serial.SameStream(db, i, j) && Serial.SameStream(db, j, k)
    ensures Serial.SentAt(db, i) <= Serial.SentAt(db, j) <= Serial.SentAt(db, k) ==>
              Serial.SentAt(db, k) - Serial.SentAt(db, i) > db.preferences[db.rows[i].preference].cooldown
  {
    assert Serial.SameStream(db, i, k);
    assert PairKept(db, i, j) && PairKept(db, j, k) && PairKept(db, i, k);
  }

  /** So from an empty table no window of a cooldown ever holds three sent deliveries of one stream. */
  lemma AtMostTwoAmongOverlapping(preferences: seq<Preference>, clock: int, steps: seq<Step>, timeout: nat,
                                  prompt: bool, i: nat, j: nat, k: nat)
    requires AllClear(Start(preferences, clock), steps, timeout, prompt)
    ensures var r := Run(Start(preferences, clock), steps, timeout, prompt).db;
            i < |r.rows| && j < |r.rows| && k < |r.rows|
            && Serial.SameStream(r, i, j) && Serial.SameStream(r, j, k) && i != k
            && Serial.SentAt(r, i) <= Serial.SentAt(r, j) <= Serial.SentAt(r, k) ==>
              Serial.SentAt(r, k) - Serial.SentAt(r, i) > r.preferences[r.rows[i].preference].cooldown
  {
    ClearRunKeepsCooldown(Start(preferences, clock), steps, timeout, prompt);
    var r := Run(Start(preferences, clock), steps, timeout, prompt).db;
    if i < |r.rows| && j < |r.rows| && k < |r.rows| && i != k
       && Serial.SameStream(r, i, j) && Serial.SameStream(r, j, k) {
      AmongThree(r, i, j, k);
    }
  }
}
