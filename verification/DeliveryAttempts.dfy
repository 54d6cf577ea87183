/**
 * How often and how soon a delivery is tried. Nothing here depends on the workers being in
 * time: late workers, deaths and recoveries may meet in any way.
 */
module DeliveryAttempts {
  import opened Common
  import opened Delivery
  import opened DeliverySafety

  /** The calls of a delivery that would ask for another attempt if they failed. */
  function Early(calls: map<nat, InFlight>, i: nat): set<nat> {
    set k | k in calls && calls[k].id == i && calls[k].attempts < 8
  }

  function Waits(row: Row): nat {
    if row.status.Waiting() then 1 else 0
  }

  /** Attempts count the claims; whatever can lead to another claim has been paid for. */
  ghost predicate CountedRow(w: World, i: nat)
    requires i < |w.db.rows| == |w.history|
  {
    var a := w.db.rows[i].attempts;
    && |w.history[i].claims| == a
    && a + Waits(w.db.rows[i]) + |Early(w.calls, i)| <= 1 + Min(7, a) + w.history[i].recoveries
  }

  /** Consecutive claims are at least the backoff delay apart. */
  ghost predicate SpacedClaims(claims: seq<int>) {
    forall k :: 0 < k < |claims| ==> claims[k] - claims[k - 1] >= Delay(k)
  }

  /** The schedule of a delivery: a retry is due a delay after its last claim. */
  ghost predicate Scheduled(row: Row, h: History) {
    && SpacedClaims(h.claims)
    && (row.status.Pending? ==> h.claims == [])
    && (row.status.Retry? ==> |h.claims| > 0 && row.nextAt == Some(h.claims[|h.claims| - 1] + Delay(|h.claims|)))
  }

  /** A delivery that was never recovered keeps its schedule, and its one call holds its row. */
  ghost predicate OnSchedule(w: World, i: nat)
    requires i < |w.db.rows| == |w.history|
  {
    w.history[i].recoveries == 0 ==>
      && Scheduled(w.db.rows[i], w.history[i])
      && (forall k :: k in w.calls && w.calls[k].id == i ==> Holds(w, w.calls[k]))
      && forall j, k :: j in w.calls && k in w.calls && w.calls[j].id == i == w.calls[k].id ==> j == k
  }

  ghost predicate Kept(w: World) {
    && WellFormed(w.db) && |w.history| == |w.db.rows|
    && (forall k :: k in w.calls ==> w.calls[k].id < |w.db.rows|)
    && (forall i :: 0 <= i < |w.db.rows| ==> CountedRow(w, i))
    && forall i :: 0 <= i < |w.db.rows| ==> OnSchedule(w, i)
  }

  // ----- Calls in flight -----

  lemma EarlyWithCall(calls: map<nat, InFlight>, worker: nat, call: InFlight, i: nat)
    requires worker !in calls
    ensures |Early(calls[worker := call], i)| == |Early(calls, i)| + if call.id == i && call.attempts < 8 then 1 else 0
  {
    if call.id == i && call.attempts < 8 {
      assert Early(calls[worker := call], i) == Early(calls, i) + {worker};
    } else {
      assert Early(calls[worker := call], i) == Early(calls, i);
    }
  }

  lemma EarlyWithoutCall(calls: map<nat, InFlight>, worker: nat, i: nat)
    requires worker in calls
    ensures |Early(calls - {worker}, i)|
         == |Early(calls, i)| - if calls[worker].id == i && calls[worker].attempts < 8 then 1 else 0
  {
    if calls[worker].id == i && calls[worker].attempts < 8 {
      assert Early(calls, i) == Early(calls - {worker}, i) + {worker};
    } else {
      assert Early(calls - {worker}, i) == Early(calls, i);
    }
  }

  lemma NoCallOfNewRow(w: World, i: nat)
    requires Kept(w) && i >= |w.db.rows|
    ensures Early(w.calls, i) == {}
  {
  }

  // ----- One step -----

  lemma TakeKeepsCount(w: World, step: Step, timeout: nat, prompt: bool, i: nat)
    requires Kept(w) && step.Take? && i < |w.db.rows|
    ensures var r := Next(w, step, timeout, prompt); i < |r.db.rows| == |r.history| && CountedRow(r, i)
  {
    var r := Next(w, step, timeout, prompt);
    assert CountedRow(w, i);
    if r.calls != w.calls {
      EarlyWithCall(w.calls, step.worker, r.calls[step.worker], i);
    }
  }

  lemma EndKeepsCount(w: World, step: Step, timeout: nat, prompt: bool, i: nat)
    requires Kept(w) && (step.Succeed? || step.Fail? || step.Die?) && i < |w.db.rows|
    ensures var r := Next(w, step, timeout, prompt); i < |r.db.rows| == |r.history| && CountedRow(r, i)
  {
    assert CountedRow(w, i);
    if step.worker in w.calls {
      EarlyWithoutCall(w.calls, step.worker, i);
    } else {
      assert w.calls - {step.worker} == w.calls;
    }
  }

  lemma StepKeepsCount(w: World, step: Step, timeout: nat, prompt: bool, i: nat)
    requires Kept(w) && i < |Next(w, step, timeout, prompt).db.rows|
    ensures var r := Next(w, step, timeout, prompt); |r.db.rows| == |r.history| && CountedRow(r, i)
  {
    var r := Next(w, step, timeout, prompt);
    if step.Take? {
      TakeKeepsCount(w, step, timeout, prompt, i);
    } else if step.Succeed? || step.Fail? || step.Die? {
      EndKeepsCount(w, step, timeout, prompt, i);
    } else if i < |w.db.rows| {
      assert CountedRow(w, i);
      assert step.Queue? ==> r.db.rows[..|w.db.rows|][i] == r.db.rows[i];
    } else {
      NoCallOfNewRow(w, i);
    }
  }

  /** A claim puts its time behind the schedule, and its call holds the row. */
  lemma ClaimKeepsSchedule(w: World, step: Step, timeout: nat, prompt: bool)
    requires Kept(w) && step.Take? && step.worker !in w.calls && step.id < |w.db.rows| && step.now <= w.clock
    requires Claimable(w.db, step.id, step.now)
    ensures var r := Next(w, step, timeout, prompt); step.id < |r.db.rows| == |r.history| && OnSchedule(r, step.id)
  {
    var r, row, h := Next(w, step, timeout, prompt), w.db.rows[step.id], w.history[step.id];
    assert CountedRow(w, step.id) && OnSchedule(w, step.id);
    if h.recoveries == 0 {
      assert forall k :: k in w.calls && w.calls[k].id == step.id ==> Holds(w, w.calls[k]);
      assert forall k :: k in w.calls ==> w.calls[k].id != step.id;
      assert h.claims != [] ==> row.status.Retry? && step.now >= h.claims[|h.claims| - 1] + Delay(|h.claims|);
      assert r.history[step.id].claims == h.claims + [step.now];
    }
  }

  lemma TakeKeepsSchedule(w: World, step: Step, timeout: nat, prompt: bool, i: nat)
    requires Kept(w) && step.Take? && i < |w.db.rows|
    ensures var r := Next(w, step, timeout, prompt); i < |r.db.rows| == |r.history| && OnSchedule(r, i)
  {
    assert OnSchedule(w, i);
    if i == step.id && step.worker !in w.calls && step.now <= w.clock {
      if Claimable(w.db, i, step.now) {
        ClaimKeepsSchedule(w, step, timeout, prompt);
      } else {
        assert w.db.rows[i].status.Waiting() ==>
            forall k :: k in w.calls && w.calls[k].id == i ==> !Holds(w, w.calls[k]);
      }
    }
  }

  lemma EndKeepsSchedule(w: World, step: Step, timeout: nat, prompt: bool, i: nat)
    requires Kept(w) && (step.Succeed? || step.Fail? || step.Die?) && i < |w.db.rows|
    ensures var r := Next(w, step, timeout, prompt); i < |r.db.rows| == |r.history| && OnSchedule(r, i)
  {
    assert CountedRow(w, i) && OnSchedule(w, i);
  }

  lemma SameRowSameSchedule(w: World, r: World, i: nat)
    requires i < |w.db.rows| == |w.history| && i < |r.db.rows| == |r.history| && OnSchedule(w, i)
    requires r.calls == w.calls
    requires r.history[i].recoveries == 0 ==> r.db.rows[i] == w.db.rows[i] && r.history[i] == w.history[i]
    ensures OnSchedule(r, i)
  {
  }

  lemma StepKeepsSchedule(w: World, step: Step, timeout: nat, prompt: bool, i: nat)
    requires Kept(w) && i < |Next(w, step, timeout, prompt).db.rows|
    ensures var r := Next(w, step, timeout, prompt); |r.db.rows| == |r.history| && OnSchedule(r, i)
  {
    var r := Next(w, step, timeout, prompt);
    if step.Take? {
      TakeKeepsSchedule(w, step, timeout, prompt, i);
    } else if step.Succeed? || step.Fail? || step.Die? {
      EndKeepsSchedule(w, step, timeout, prompt, i);
    } else if i < |w.db.rows| {
      assert step.Queue? ==> r.db.rows[..|w.db.rows|][i] == r.db.rows[i];
      SameRowSameSchedule(w, r, i);
    } else {
      assert forall k :: k in w.calls ==> w.calls[k].id != i;
    }
  }

  lemma StepKeeps(w: World, step: Step, timeout: nat, prompt: bool)
    requires Kept(w)
    ensures Kept(Next(w, step, timeout, prompt))
  {
    var r := Next(w, step, timeout, prompt);
    forall i | 0 <= i < |r.db.rows|
      ensures |r.history| == |r.db.rows| && CountedRow(r, i) && OnSchedule(r, i)
    {
      StepKeepsCount(w, step, timeout, prompt, i);
      StepKeepsSchedule(w, step, timeout, prompt, i);
    }
    assert |r.history| == |r.db.rows| && |w.db.rows| <= |r.db.rows|;
  }

  lemma {:induction false} RunKeeps(w: World, steps: seq<Step>, timeout: nat, prompt: bool)
    requires Kept(w)
    ensures Kept(Run(w, steps, timeout, prompt))
  {
    if steps != [] {
      RunKeeps(w, steps[..|steps| - 1], timeout, prompt);
      StepKeeps(Run(w, steps[..|steps| - 1], timeout, prompt), steps[|steps| - 1], timeout, prompt);
    }
  }

  // ----- Whole runs -----

  /** Over every run attempts count the claims, and only recoveries can push them past eight. */
  lemma AttemptsAreBounded(preferences: seq<Preference>, clock: int, steps: seq<Step>, timeout: nat, prompt: bool,
                           i: nat)
    requires i < |Run(Start(preferences, clock), steps, timeout, prompt).db.rows|
    ensures var w := Run(Start(preferences, clock), steps, timeout, prompt);
            && i < |w.history|
            && |w.history[i].claims| == w.db.rows[i].attempts <= 8 + w.history[i].recoveries
  {
    RunKeeps(Start(preferences, clock), steps, timeout, prompt);
    assert CountedRow(Run(Start(preferences, clock), steps, timeout, prompt), i);
  }

  // ----- Giving up -----

  /** A failing call gives its delivery up exactly at the eighth attempt or later; before, it is due again. */
  lemma FailureGivesUpExactlyAtEight(w: World, worker: nat, timeout: nat, prompt: bool)
    requires WellFormed(w.db) && |w.history| == |w.db.rows| && worker in w.calls && w.calls[worker].id < |w.db.rows|
    ensures var call := w.calls[worker];
            var row := Next(w, Fail(worker), timeout, prompt).db.rows[call.id];
            && (row.status.Failed? <==> call.attempts >= 8) && (row.status.Retry? <==> call.attempts < 8)
            && row.nextAt == Some(call.now + Delay(call.attempts)) && row.attempts == w.db.rows[call.id].attempts
  {
  }

  /** The calls carry no more attempts than their rows, and what is given up had eight. */
  ghost predicate GivesUpLate(w: World) {
    && WellFormed(w.db) && |w.history| == |w.db.rows|
    && (forall k :: k in w.calls ==>
          w.calls[k].id < |w.db.rows| && w.calls[k].attempts <= w.db.rows[w.calls[k].id].attempts)
    && forall i :: 0 <= i < |w.db.rows| && w.db.rows[i].status.Failed? ==> w.db.rows[i].attempts >= 8
  }

  lemma RowGivesUpLate(w: World, step: Step, timeout: nat, prompt: bool, i: nat)
    requires GivesUpLate(w) && i < |Next(w, step, timeout, prompt).db.rows|
    ensures var row := Next(w, step, timeout, prompt).db.rows[i];
            && (i < |w.db.rows| ==> row.attempts >= w.db.rows[i].attempts)
            && (row.status.Failed? ==> row.attempts >= 8)
  {
    var r := Next(w, step, timeout, prompt);
    if step.Queue? && i < |w.db.rows| {
      assert r.db.rows[..|w.db.rows|][i] == r.db.rows[i];
    }
  }

  lemma StepGivesUpLate(w: World, step: Step, timeout: nat, prompt: bool)
    requires GivesUpLate(w)
    ensures GivesUpLate(Next(w, step, timeout, prompt))
  {
    var r := Next(w, step, timeout, prompt);
    forall i | 0 <= i < |r.db.rows|
      ensures i < |w.db.rows| ==> r.db.rows[i].attempts >= w.db.rows[i].attempts
      ensures r.db.rows[i].status.Failed? ==> r.db.rows[i].attempts >= 8
    {
      RowGivesUpLate(w, step, timeout, prompt, i);
    }
    assert |w.db.rows| <= |r.db.rows| == |r.history|;
  }

  /** Over every run, timely or not, a delivery is given up only after eight attempts. */
  lemma {:induction false} FailedAfterEightAttempts(w: World, steps: seq<Step>, timeout: nat, prompt: bool)
    requires GivesUpLate(w)
    ensures GivesUpLate(Run(w, steps, timeout, prompt))
  {
    if steps != [] {
      FailedAfterEightAttempts(w, steps[..|steps| - 1], timeout, prompt);
      StepGivesUpLate(Run(w, steps[..|steps| - 1], timeout, prompt), steps[|steps| - 1], timeout, prompt);
    }
  }

  /** In particular from an empty table. */
  lemma GivenUpAfterEight(preferences: seq<Preference>, clock: int, steps: seq<Step>, timeout: nat, prompt: bool,
                          i: nat)
    ensures var w := Run(Start(preferences, clock), steps, timeout, prompt);
            i < |w.db.rows| && w.db.rows[i].status.Failed? ==> w.db.rows[i].attempts >= 8 && |w.history[i].claims| >= 8
  {
    FailedAfterEightAttempts(Start(preferences, clock), steps, timeout, prompt);
    var w := Run(Start(preferences, clock), steps, timeout, prompt);
    if i < |w.db.rows| {
      AttemptsAreBounded(preferences, clock, steps, timeout, prompt, i);
    }
  }

  // ----- The delays -----

  /** The delays double from one minute to an hour. */
  lemma DelaysDouble(k: nat)
    ensures Delay(1) == 60 && Delay(7) == 3600
    ensures 1 <= k < 6 ==> Delay(k + 1) == 2 * Delay(k)
    ensures k >= 7 ==> Delay(k) == 3600
  {
    assert Pow2(1) == 2 && Pow2(2) == 4 && Pow2(3) == 8;
    assert Pow2(4) == 16 && Pow2(5) == 32;
    assert Pow2(6) == 64 && Pow2(7) == 128;
  }

  /** The seconds that k consecutive failures cost. */
  function TotalDelay(k: nat): int {
    if k == 0 then 0 else TotalDelay(k - 1) + Delay(k)
  }

  lemma {:induction false} ClaimsSpreadOut(claims: seq<int>, k: nat)
    requires SpacedClaims(claims) && k < |claims|
    ensures claims[k] - claims[0] >= TotalDelay(k)
  {
    if k > 0 {
      ClaimsSpreadOut(claims, k - 1);
    }
  }

  lemma SevenDelays()
    ensures TotalDelay(7) == 7380
  {
    assert Pow2(1) == 2 && Pow2(2) == 4 && Pow2(3) == 8;
    assert Pow2(4) == 16 && Pow2(5) == 32;
    assert Pow2(6) == 64 && Pow2(7) == 128;
    assert TotalDelay(2) == 180;
    assert TotalDelay(4) == 900;
    assert TotalDelay(6) == 3780;
  }

  /** Without a recovery the k-th retry waits for all the delays before it; the eighth claim for 7380 seconds. */
  lemma RetriesBackOff(preferences: seq<Preference>, clock: int, steps: seq<Step>, timeout: nat, prompt: bool,
                       i: nat, k: nat)
    requires var w := Run(Start(preferences, clock), steps, timeout, prompt);
             i < |w.db.rows| && w.history[i].recoveries == 0 && k < |w.history[i].claims|
    ensures var claims := Run(Start(preferences, clock), steps, timeout, prompt).history[i].claims;
            && k < 8
            && claims[k] - claims[0] >= TotalDelay(k)
            && (k == 7 ==> claims[k] - claims[0] >= 7380)
  {
    var w := Run(Start(preferences, clock), steps, timeout, prompt);
    RunKeeps(Start(preferences, clock), steps, timeout, prompt);
    assert CountedRow(w, i) && OnSchedule(w, i);
    ClaimsSpreadOut(w.history[i].claims, k);
    SevenDelays();
  }
}
