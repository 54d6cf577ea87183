/**
 * run_once: a row per (customer, task, key) acts as a lease on a task's body, as the lock
 * against a second execution, and as the memory of its result.
 */
module TaskLease {
  import opened Common

  /** The unique key of a row; tasks without a customer share the scope None. */
  datatype Scope = Scope(customer: Option<nat>, task: string, key: string)

  datatype Status = Running | Success | Failure

  type Payload = map<string, string>

  datatype TaskRun = TaskRun(
    status: Status,
    celeryId: string,
    startedAt: int,
    finishedAt: Option<int>,
    result: Payload,
    error: string)

  type Runs = map<Scope, TaskRun>

  /** How a caller leaves run_once. */
  datatype Answer = Duplicate(result: Payload) | Busy | Raced | Ran(result: Payload) | Raised

  /** What the first transaction decides. */
  datatype Decision = Return(answer: Answer) | Execute | Insert

  /** The lease was taken too long ago to be respected at time now. */
  predicate Expired(run: TaskRun, now: int, stale: nat) {
    run.startedAt <= now - stale
  }

  function Decide(runs: Runs, scope: Scope, now: int, stale: nat): Decision {
    if scope !in runs then Insert
    else if runs[scope].status.Success? then Return(Duplicate(runs[scope].result))
    else if runs[scope].status.Running? && !Expired(runs[scope], now, stale) then Return(Busy)
    else Execute
  }

  /** Taking over an existing row. */
  function TakenOver(runs: Runs, scope: Scope, celeryId: string, now: int): Runs
    requires scope in runs
  {
    var run := runs[scope];
    runs[scope := run.(status := Running, celeryId := celeryId, error := "", startedAt := now, finishedAt := None)]
  }

  function Created(runs: Runs, scope: Scope, celeryId: string, clock: int): Runs {
    runs[scope := TaskRun(Running, celeryId, clock, None, map[], "")]
  }

  function Succeeded(runs: Runs, scope: Scope, result: Payload, clock: int): Runs {
    if scope !in runs then runs
    else runs[scope := runs[scope].(status := Success, result := result, finishedAt := Some(clock))]
  }

  const FAILURE_TEXT := "Échec interne de la tâche. Consultez les logs serveur."

  function Failed(runs: Runs, scope: Scope, clock: int): Runs {
    if scope !in runs then runs
    else runs[scope := runs[scope].(status := Failure, error := FAILURE_TEXT, finishedAt := Some(clock))]
  }

  /** What the body does: it returns, raises, or is killed with its worker. */
  datatype Body = Returns(result: Payload) | Raises | IsKilled

  /** One call of run_once that nothing interrupts; no answer means that the worker was killed. */
  function Called(runs: Runs, scope: Scope, celeryId: string, now: int, createdAt: int, doneAt: int, stale: nat,
                  body: Body)
    : (Runs, Option<Answer>)
  {
    var decision := Decide(runs, scope, now, stale);
    if decision.Return? then (runs, Some(decision.answer))
    else
      var leased := if scope in runs then TakenOver(runs, scope, celeryId, now)
          else Created(runs, scope, celeryId, createdAt);
      match body
      case Returns(result) => (Succeeded(leased, scope, result, doneAt), Some(Ran(result)))
      case Raises => (Failed(leased, scope, doneAt), Some(Raised))
      case IsKilled => (leased, None)
  }

  class TaskRunTable {
    var runs: Runs

    constructor ()
      ensures runs == map[]
    {
      runs := map[];
    }

    /** The first transaction: answer at once, or take the lease, or find that there is no row yet. */
    method Begin(scope: Scope, celeryId: string, now: int, stale: nat) returns (decision: Decision)
      modifies this
      ensures decision == Decide(old(runs), scope, now, stale)
      ensures runs == if decision.Execute? then TakenOver(old(runs), scope, celeryId, now) else old(runs)
    {
      if scope !in runs {
        return Insert;
      }
      var run := runs[scope];
      if run.status.Success? {
        return Return(Duplicate(run.result));
      }
      if run.status.Running? && run.startedAt > now - stale {
        return Return(Busy);
      }
      run := run.(status := Running);
      run := run.(celeryId := celeryId, error := "");
      run := run.(startedAt := now, finishedAt := None);
      runs := runs[scope := run];
      return Execute;
    }

    /** Inserting the missing row; the constraint refuses when another caller was faster. */
    method Create(scope: Scope, celeryId: string, clock: int) returns (raced: bool)
      modifies this
      ensures raced == (scope in old(runs))
      ensures runs == if raced then old(runs) else Created(old(runs), scope, celeryId, clock)
    {
      raced := scope in runs;
      if !raced {
        runs := runs[scope := TaskRun(Running, celeryId, clock, None, map[], "")];
      }
    }

    /** run_once with the given body. */
    method RunOnce(scope: Scope, celeryId: string, now: int, createdAt: int, doneAt: int, stale: nat, body: Body)
      returns (answer: Option<Answer>)
      modifies this
      ensures (runs, answer) == Called(old(runs), scope, celeryId, now, createdAt, doneAt, stale, body)
    {
      var decision := Begin(scope, celeryId, now, stale);
      if decision.Return? {
        return Some(decision.answer);
      }
      if decision.Insert? {
        var raced := Create(scope, celeryId, createdAt);
        if raced {
          return Some(Raced);
        }
      }
      match body
      case Returns(result) =>
        runs := runs[scope := runs[scope].(status := Success, result := result, finishedAt := Some(doneAt))];
        return Some(Ran(result));
      case Raises =>
        runs := runs[scope := runs[scope].(status := Failure, error := FAILURE_TEXT, finishedAt := Some(doneAt))];
        return Some(Raised);
      case IsKilled =>
        return None;
    }
  }

  // ----- Any number of callers -----

  /** A caller between the two parts of the first transaction, or running the body; now is its first clock reading. */
  datatype Caller = Inserting(scope: Scope, now: int) | Executing(scope: Scope, now: int)

  datatype World = World(runs: Runs, clock: int, callers: map<nat, Caller>)

  datatype Step =
    | Tick(to: int)
    | Call(worker: nat, scope: Scope, now: int)
    | Add(worker: nat)
    | Finish(worker: nat, result: Payload)
    | Raise(worker: nat)
    | Kill(worker: nat)

  /** At the given time every caller is still within the stale limit of its start. */
  predicate OnTime(w: World, time: int, stale: nat) {
    forall k :: k in w.callers ==> time < w.callers[k].now + stale
  }

  /** One step; with prompt set, callers end or are killed before the stale limit. */
  function Next(w: World, step: Step, stale: nat, prompt: bool): World {
    match step
    case Tick(to) => if to < w.clock || (prompt && !OnTime(w, to, stale)) then w else w.(clock := to)
    case Call(worker, scope, now) =>
      if worker in w.callers || now > w.clock || (prompt && w.clock >= now + stale) then w
      else
        (match Decide(w.runs, scope, now, stale)
         case Return(_) => w
         case Execute => w.(runs := TakenOver(w.runs, scope, "", now),
             callers := w.callers[worker := Executing(scope, now)])
         case Insert => w.(callers := w.callers[worker := Inserting(scope, now)]))
    case Add(worker) =>
      if worker !in w.callers || !w.callers[worker].Inserting? then w
      else
        var caller := w.callers[worker];
        if caller.scope in w.runs then w.(callers := w.callers - {worker})
        else
          w.(runs := Created(w.runs, caller.scope, "", w.clock),
             callers := w.callers[worker := Executing(caller.scope, caller.now)])
    case Finish(worker, result) =>
      if worker !in w.callers || !w.callers[worker].Executing? then w
      else w.(runs := Succeeded(w.runs, w.callers[worker].scope, result, w.clock), callers := w.callers - {worker})
    case Raise(worker) =>
      if worker !in w.callers || !w.callers[worker].Executing? then w
      else w.(runs := Failed(w.runs, w.callers[worker].scope, w.clock), callers := w.callers - {worker})
    case Kill(worker) => w.(callers := w.callers - {worker})
  }

  function Run(w: World, steps: seq<Step>, stale: nat, prompt: bool): World {
    if steps == [] then w else Next(Run(w, steps[..|steps| - 1], stale, prompt), steps[|steps| - 1], stale, prompt)
  }

  /** A running body holds the lease of its scope. */
  predicate Leased(w: World, caller: Caller) {
    && caller.now <= w.clock
    && (caller.Executing? ==>
          && caller.scope in w.runs && w.runs[caller.scope].status.Running?
          && w.runs[caller.scope].startedAt >= caller.now)
  }

  ghost predicate Exclusive(w: World) {
    && (forall k :: k in w.callers ==> Leased(w, w.callers[k]))
    && forall j, k | j in w.callers && k in w.callers && w.callers[j].Executing? && w.callers[k].Executing? ::
         j != k ==> w.callers[j].scope != w.callers[k].scope
  }

  /** A call takes over a lease whose body is still running. */
  predicate Overtakes(w: World, step: Step, stale: nat, prompt: bool) {
    && step.Call? && step.worker !in w.callers && step.now <= w.clock && !(prompt && w.clock >= step.now + stale)
    && Decide(w.runs, step.scope, step.now, stale).Execute?
    && exists k :: k in w.callers && w.callers[k].Executing? && w.callers[k].scope == step.scope
  }

  lemma CallerKeepsLease(w: World, step: Step, stale: nat, prompt: bool, k: nat)
    requires Exclusive(w) && !Overtakes(w, step, stale, prompt) && k in Next(w, step, stale, prompt).callers
    ensures var r := Next(w, step, stale, prompt);
            && Leased(r, r.callers[k])
            && (k in w.callers && w.callers[k].Executing? ==> r.callers[k] == w.callers[k])
            && (r.callers[k].Executing? && !(k in w.callers && w.callers[k].Executing?) ==>
                  forall j :: j in w.callers && w.callers[j].Executing? ==> w.callers[j].scope != r.callers[k].scope)
  {
    if k in w.callers {
      assert Leased(w, w.callers[k]);
    }
    if step.Add? || step.Finish? || step.Raise? {
      assert step.worker in w.callers ==> Leased(w, w.callers[step.worker]);
    }
    assert forall j :: j in w.callers ==> Leased(w, w.callers[j]);
  }

  /** Two bodies of one task run at once exactly when a call overtakes a body that outlived its lease. */
  lemma ExclusionLostExactlyByOvertaking(w: World, step: Step, stale: nat, prompt: bool)
    requires Exclusive(w)
    ensures Exclusive(Next(w, step, stale, prompt)) <==> !Overtakes(w, step, stale, prompt)
  {
    var r := Next(w, step, stale, prompt);
    if Overtakes(w, step, stale, prompt) {
      var k :| k in w.callers && w.callers[k].Executing? && w.callers[k].scope == step.scope;
      assert r.callers[k] == w.callers[k] && r.callers[step.worker] == Executing(step.scope, step.now);
    } else {
      forall k | k in r.callers
        ensures Leased(r, r.callers[k])
        ensures k in w.callers && w.callers[k].Executing? ==> r.callers[k] == w.callers[k]
        ensures r.callers[k].Executing? && !(k in w.callers && w.callers[k].Executing?) ==>
                  forall j :: j in w.callers && w.callers[j].Executing? ==> w.callers[j].scope != r.callers[k].scope
      {
        CallerKeepsLease(w, step, stale, prompt, k);
      }
      forall j, k | j in r.callers && k in r.callers && j != k && r.callers[j].Executing? && r.callers[k].Executing?
        ensures r.callers[j].scope != r.callers[k].scope
      {
        assert (j in w.callers && w.callers[j].Executing?) || (k in w.callers && w.callers[k].Executing?);
      }
    }
  }

  lemma PromptStepKeepsExclusion(w: World, step: Step, stale: nat)
    requires Exclusive(w) && OnTime(w, w.clock, stale)
    ensures var r := Next(w, step, stale, true); Exclusive(r) && OnTime(r, r.clock, stale)
  {
    forall k | k in w.callers && w.callers[k].Executing? && step.Call? && w.callers[k].scope == step.scope
      && step.now <= w.clock
      ensures !Decide(w.runs, step.scope, step.now, stale).Execute?
    {
      assert Leased(w, w.callers[k]);
    }
    ExclusionLostExactlyByOvertaking(w, step, stale, true);
  }

  lemma {:induction false} PromptRunKeepsExclusion(w: World, steps: seq<Step>, stale: nat)
    requires Exclusive(w) && OnTime(w, w.clock, stale)
    ensures var r := Run(w, steps, stale, true); Exclusive(r) && OnTime(r, r.clock, stale)
  {
    if steps != [] {
      PromptRunKeepsExclusion(w, steps[..|steps| - 1], stale);
      PromptStepKeepsExclusion(Run(w, steps[..|steps| - 1], stale, true), steps[|steps| - 1], stale);
    }
  }

  /** From any table, over any run of callers: one body per scope, and only while its row is RUNNING. */
  lemma AtMostOneBodyRuns(runs: Runs, clock: int, steps: seq<Step>, stale: nat, j: nat, k: nat)
    requires var w := Run(World(runs, clock, map[]), steps, stale, true);
             j in w.callers && w.callers[j].Executing? && k in w.callers && w.callers[k].Executing?
    ensures var w := Run(World(runs, clock, map[]), steps, stale, true);
            && (w.callers[j].scope == w.callers[k].scope ==> j == k)
            && w.callers[j].scope in w.runs && w.runs[w.callers[j].scope].status.Running?
  {
    PromptRunKeepsExclusion(World(runs, clock, map[]), steps, stale);
    var w := Run(World(runs, clock, map[]), steps, stale, true);
    assert Leased(w, w.callers[j]);
  }

  predicate Done(w: World, scope: Scope) {
    scope in w.runs && w.runs[scope].status.Success?
  }

  /** Once a task has succeeded its row never changes again and its body never runs again. */
  lemma {:induction false} SuccessIsFinal(w: World, steps: seq<Step>, stale: nat, scope: Scope)
    requires Exclusive(w) && OnTime(w, w.clock, stale) && Done(w, scope)
    ensures var r := Run(w, steps, stale, true);
            && Done(r, scope) && r.runs[scope] == w.runs[scope]
            && forall k :: k in r.callers && r.callers[k].Executing? ==> r.callers[k].scope != scope
  {
    var r := Run(w, steps, stale, true);
    PromptRunKeepsExclusion(w, steps, stale);
    if steps != [] {
      var before := Run(w, steps[..|steps| - 1], stale, true);
      SuccessIsFinal(w, steps[..|steps| - 1], stale, scope);
      PromptRunKeepsExclusion(w, steps[..|steps| - 1], stale);
    }
    forall k | k in r.callers && r.callers[k].Executing?
      ensures r.callers[k].scope != scope
    {
      assert Leased(r, r.callers[k]);
    }
  }

  /** So every later caller, at whatever time, is answered with the stored result and changes nothing. */
  lemma LaterCallersGetTheResult(w: World, steps: seq<Step>, stale: nat, scope: Scope, celeryId: string,
                                 now: int, createdAt: int, doneAt: int, body: Body)
    requires Exclusive(w) && OnTime(w, w.clock, stale) && Done(w, scope)
    ensures Called(Run(w, steps, stale, true).runs, scope, celeryId, now, createdAt, doneAt, stale, body)
         == (Run(w, steps, stale, true).runs, Some(Duplicate(w.runs[scope].result)))
  {
    SuccessIsFinal(w, steps, stale, scope);
  }

  /** What the body returns is what every later caller gets. */
  lemma ResultIsRemembered(w: World, worker: nat, result: Payload, steps: seq<Step>, stale: nat, celeryId: string,
                           now: int, createdAt: int, doneAt: int, body: Body)
    requires Exclusive(w) && OnTime(w, w.clock, stale) && worker in w.callers && w.callers[worker].Executing?
    ensures var r := Run(Next(w, Finish(worker, result), stale, true), steps, stale, true);
            var scope := w.callers[worker].scope;
            Called(r.runs, scope, celeryId, now, createdAt, doneAt, stale, body) == (r.runs, Some(Duplicate(result)))
  {
    var scope, finished := w.callers[worker].scope, Next(w, Finish(worker, result), stale, true);
    assert Leased(w, w.callers[worker]);
    PromptStepKeepsExclusion(w, Finish(worker, result), stale);
    assert Done(finished, scope) && finished.runs[scope].result == result;
    LaterCallersGetTheResult(finished, steps, stale, scope, celeryId, now, createdAt, doneAt, body);
  }

  /**
   * Of two calls one after the other, at any times: when the first ran the body to its end, the second gets
   * the same result without running anything; when it failed or was killed, the second is not answered with
   * a result of the first.
   */
  lemma SecondCallGetsTheFirstResult(runs: Runs, scope: Scope, id: string, now: int, createdAt: int, doneAt: int,
                                     body: Body, again: string, later: int, created: int, done: int, other: Body,
                                     stale: nat)
    ensures var (after, answer) := Called(runs, scope, id, now, createdAt, doneAt, stale, body);
            var second := Called(after, scope, again, later, created, done, stale, other);
            && (answer.Some? && answer.value.Ran? ==> second == (after, Some(Duplicate(answer.value.result))))
            && (answer.Some? && answer.value.Duplicate? ==> after == runs && second == (after, answer))
            && (answer == None || answer == Some(Raised) ==> second.1.Some? ==> !second.1.value.Duplicate?)
  {
  }

  /** The body runs, and its end is the answer, exactly when there is no result yet and no lease that still counts. */
  lemma BodyRunsExactlyWhenFree(runs: Runs, scope: Scope, id: string, now: int, createdAt: int, doneAt: int,
                                stale: nat, body: Body)
    ensures var free := scope !in runs || runs[scope].status.Failure?
              || (runs[scope].status.Running? && now - runs[scope].startedAt >= stale);
            var answer := Called(runs, scope, id, now, createdAt, doneAt, stale, body).1;
            && (free ==> answer == match body
                                   case Returns(result) => Some(Ran(result))
                                   case Raises => Some(Raised)
                                   case IsKilled => None)
            && (!free ==> answer == if runs[scope].status.Success? then Some(Duplicate(runs[scope].result))
                                    else Some(Busy))
  {
  }

  /** What a call that runs the body leaves in its row: the end of the body, or a lease taken when it began. */
  lemma CallLeavesItsEnd(runs: Runs, scope: Scope, id: string, now: int, createdAt: int, doneAt: int, stale: nat,
                         body: Body)
    requires !Decide(runs, scope, now, stale).Return?
    ensures var after := Called(runs, scope, id, now, createdAt, doneAt, stale, body).0;
            && after.Keys == runs.Keys + {scope} && (forall s :: s in runs && s != scope ==> after[s] == runs[s])
            && var run := after[scope];
            && run.celeryId == id && run.startedAt == (if scope in runs then now else createdAt)
            && (body.Returns? ==> run.status.Success? && run.result == body.result && run.finishedAt == Some(doneAt))
            && (body.Raises? ==> run.status.Failure? && run.finishedAt == Some(doneAt))
            && (body.Raises? ==> run.error == "Échec interne de la tâche. Consultez les logs serveur.")
            && (body.IsKilled? ==> run.status.Running? && run.finishedAt.None? && run.error == "")
            && (!body.Returns? ==> run.result == if scope in runs then runs[scope].result else map[])
  {
  }

  /** A step touches at most the row of one scope: the one its caller works on. */
  predicate WorksOn(w: World, step: Step, scope: Scope) {
    match step
    case Tick(_) => false
    case Call(_, s, _) => s == scope
    case Add(worker) => worker in w.callers && w.callers[worker].scope == scope
    case Finish(worker, _) => worker in w.callers && w.callers[worker].scope == scope
    case Raise(worker) => worker in w.callers && w.callers[worker].scope == scope
    case Kill(_) => false
  }

  lemma StepLeavesOtherScopes(w: World, step: Step, stale: nat, prompt: bool, scope: Scope)
    requires !WorksOn(w, step, scope)
    ensures var r := Next(w, step, stale, prompt);
            && (scope in r.runs <==> scope in w.runs)
            && (scope in w.runs ==> r.runs[scope] == w.runs[scope])
  {
  }

  ghost predicate NoneWorksOn(w: World, steps: seq<Step>, stale: nat, prompt: bool, scope: Scope) {
    forall n :: 0 <= n < |steps| ==> !WorksOn(Run(w, steps[..n], stale, prompt), steps[n], scope)
  }

  /** Callers of other customers, tasks and keys do not touch a scope. */
  lemma {:induction false} OtherScopesAreUntouched(w: World, steps: seq<Step>, stale: nat, prompt: bool, scope: Scope)
    requires NoneWorksOn(w, steps, stale, prompt, scope)
    ensures var r := Run(w, steps, stale, prompt);
            && (scope in r.runs <==> scope in w.runs)
            && (scope in w.runs ==> r.runs[scope] == w.runs[scope])
  {
    if steps != [] {
      var init := steps[..|steps| - 1];
      assert forall n :: 0 <= n < |init| ==> init[..n] == steps[..n] && init[n] == steps[n];
      OtherScopesAreUntouched(w, init, stale, prompt, scope);
      StepLeavesOtherScopes(Run(w, init, stale, prompt), steps[|steps| - 1], stale, prompt, scope);
    }
  }

  // ----- Without the time limit -----

  /** Some caller runs the body of the scope. */
  predicate BodyRuns(w: World, scope: Scope) {
    exists k :: k in w.callers && w.callers[k] == Executing(scope, w.callers[k].now)
  }

  /** The run, timely or not, leaves the stored success as it is. */
  predicate LeavesSuccess(w: World, steps: seq<Step>, stale: nat, scope: Scope)
    requires Done(w, scope)
  {
    var runs := Run(w, steps, stale, false).runs;
    scope in runs && runs[scope] == w.runs[scope]
  }

  lemma StepKeepsUnrunSuccess(w: World, step: Step, stale: nat, scope: Scope)
    requires Done(w, scope) && !BodyRuns(w, scope)
    ensures var r := Next(w, step, stale, false);
            scope in r.runs && r.runs[scope] == w.runs[scope] && !BodyRuns(r, scope)
  {
    var r := Next(w, step, stale, false);
    forall k | k in r.callers
      ensures r.callers[k] != Executing(scope, r.callers[k].now)
    {
      assert k in w.callers ==> w.callers[k] != Executing(scope, w.callers[k].now);
    }
  }

  lemma {:induction false} RunKeepsUnrunSuccess(w: World, steps: seq<Step>, stale: nat, scope: Scope)
    requires Done(w, scope) && !BodyRuns(w, scope)
    ensures LeavesSuccess(w, steps, stale, scope) && !BodyRuns(Run(w, steps, stale, false), scope)
  {
    if steps != [] {
      var init := steps[..|steps| - 1];
      RunKeepsUnrunSuccess(w, init, stale, scope);
      StepKeepsUnrunSuccess(Run(w, init, stale, false), steps[|steps| - 1], stale, scope);
    }
  }

  lemma SingleStep(w: World, step: Step, stale: nat, prompt: bool)
    ensures Run(w, [step], stale, prompt) == Next(w, step, stale, prompt)
  {
    assert [step][..0] == [];
  }

  /** A stored success is final over every run exactly when no body of its scope is running. */
  lemma SuccessIsFinalExactlyWithoutBody(w: World, stale: nat, scope: Scope)
    requires Done(w, scope)
    ensures (forall steps :: LeavesSuccess(w, steps, stale, scope)) <==> !BodyRuns(w, scope)
  {
    if BodyRuns(w, scope) {
      var k :| k in w.callers && w.callers[k] == Executing(scope, w.callers[k].now);
      SingleStep(w, Raise(k), stale, false);
      assert !LeavesSuccess(w, [Raise(k)], stale, scope);
    } else {
      forall steps
        ensures LeavesSuccess(w, steps, stale, scope)
      {
        RunKeepsUnrunSuccess(w, steps, stale, scope);
      }
    }
  }

  /** A caller starts a body at time 0, another takes over after an hour and succeeds, then the first one fails. */
  function OverrunRun(scope: Scope): seq<Step> {
    [Call(0, scope, 0), Add(0), Tick(3600), Call(1, scope, 3600), Finish(1, map[]), Raise(0)]
  }

  lemma OneMoreStep(w: World, steps: seq<Step>, n: nat, stale: nat, prompt: bool)
    requires n < |steps|
    ensures Run(w, steps[..n + 1], stale, prompt) == Next(Run(w, steps[..n], stale, prompt), steps[n], stale, prompt)
  {
    assert steps[..n + 1][..n] == steps[..n];
  }

  lemma OverrunUntilTakeover(scope: Scope)
    ensures var w := Run(World(map[], 0, map[]), OverrunRun(scope)[..4], 3600, false);
            && scope in w.runs && w.callers == map[0 := Executing(scope, 0), 1 := Executing(scope, 3600)]
  {
    var steps, start := OverrunRun(scope), World(map[], 0, map[]);
    assert steps[..0] == [];
    OneMoreStep(start, steps, 0, 3600, false);
    OneMoreStep(start, steps, 1, 3600, false);
    OneMoreStep(start, steps, 2, 3600, false);
    OneMoreStep(start, steps, 3, 3600, false);
    var added := Run(start, steps[..2], 3600, false);
    assert added.callers == map[0 := Executing(scope, 0)] && added.runs[scope].startedAt == 0;
  }

  /**
   * From an empty table, a body that outlives its lease fails after another execution succeeded, and erases
   * the success.
   */
  lemma OverrunErasesSuccess(scope: Scope)
    ensures var start := World(map[], 0, map[]);
            && Done(Run(start, OverrunRun(scope)[..5], 3600, false), scope)
            && !Done(Run(start, OverrunRun(scope), 3600, false), scope)
  {
    var steps, start := OverrunRun(scope), World(map[], 0, map[]);
    OverrunUntilTakeover(scope);
    OneMoreStep(start, steps, 4, 3600, false);
    assert Run(start, steps[..5], 3600, false).callers == map[0 := Executing(scope, 0)];
    OneMoreStep(start, steps, 5, 3600, false);
    assert steps[..6] == steps;
  }

  // ----- The race for a missing row -----

  /** Of two callers that both found no row, whoever adds it first runs the body and the other leaves with nothing. */
  lemma RaceHasOneWinner(w: World, j: nat, k: nat, scope: Scope, stale: nat, prompt: bool)
    requires j != k && j in w.callers && k in w.callers && scope !in w.runs
    requires w.callers[j].Inserting? && w.callers[k].Inserting? && w.callers[j].scope == scope == w.callers[k].scope
    ensures var first := Next(w, Add(j), stale, prompt);
            var second := Next(first, Add(k), stale, prompt);
            && j in second.callers && second.callers[j].Executing? && second.callers[j].scope == scope
            && k !in second.callers
            && scope in first.runs && second.runs == first.runs
  {
    var first := Next(w, Add(j), stale, prompt);
    assert first.callers[k] == w.callers[k];
  }
}
