/**
 * Progress of one dispatcher among any number of others. The dispatcher selects a batch and
 * then claims its deliveries one by one; between any two of its steps other dispatchers and
 * workers may do whatever they can, and it may itself be killed and start over.
 */
module DeliveryProgress {
  import opened Common
  import opened Delivery
  import opened DeliverySafety
  import DeliveryDispatch

  /** The world, and what is left of the dispatcher's batch while a round of it is open. */
  datatype Scene = Scene(world: World, batch: seq<nat>, open: bool)

  datatype Move =
    | Others(step: Step)
    | Select(now: int, ids: seq<nat>)
    | ClaimNext(worker: nat, now: int)
    | Finish
    | Killed

  predicate Sound(w: World) { WellFormed(w.db) && |w.history| == |w.db.rows| }

  /** The move as it happens; the outcomes of the dispatcher's own calls are steps of others. */
  function Moved(s: Scene, move: Move, timeout: nat): (r: Scene)
    requires Sound(s.world)
    ensures Sound(r.world) && |s.world.db.rows| <= |r.world.db.rows|
  {
    match move
    case Others(step) => s.(world := Next(s.world, step, timeout, false))
    case Select(_, ids) => if s.open then s else s.(batch := ids, open := true)
    case ClaimNext(worker, now) =>
      if s.batch == [] then s
      else Scene(Next(s.world, Take(worker, s.batch[0], now), timeout, false), s.batch[1..], s.open)
    case Finish => if s.open && s.batch == [] then s.(open := false) else s
    case Killed => s.(batch := [], open := false)
  }

  predicate StepAfter(w: World, step: Step, t: int) {
    match step
    case Take(_, _, now) => now > t
    case Recover(now) => now > t
    case Queue(_, _) => w.clock > t
    case _ => true
  }

  /** The move is one the program can make, and it reads a clock that is past the time t. */
  ghost predicate Legal(s: Scene, move: Move, limit: nat, t: int)
    requires Sound(s.world)
  {
    match move
    case Others(step) => StepAfter(s.world, step, t)
    case Select(now, ids) => now > t && !s.open && IsDueBatch(s.world.db, now, limit, ids)
    case ClaimNext(worker, now) => s.batch != [] && now > t && worker !in s.world.calls && now <= s.world.clock
    case Finish => s.open && s.batch == []
    case Killed => true
  }

  /** The move changes the row of delivery d. */
  predicate Handles(s: Scene, move: Move, timeout: nat, d: nat)
    requires Sound(s.world) && d < |s.world.db.rows|
  {
    Moved(s, move, timeout).world.db.rows[d] != s.world.db.rows[d]
  }

  /** Delivery d waits for time t. */
  predicate DueSince(w: World, d: nat, t: int) {
    Sound(w) && DeliveryDispatch.WaitsSince(w.db, d, t)
  }

  function Ahead(w: World, d: nat): set<nat>
    requires d < |w.db.rows|
  {
    DeliveryDispatch.Ahead(w.db, d)
  }

  /** The workers whose call in flight, when it fails, asks for a time up to t. */
  function Returning(w: World, t: int): set<nat> {
    set k | k in w.calls && w.calls[k].now + Delay(w.calls[k].attempts) <= t
  }

  // ----- What changes the row, and what moves ahead of it -----

  /** The delivery, if any, that the step lets in front of others due at t: that of a returning call that fails. */
  function Readmitted(w: World, step: Step, t: int): set<nat> {
    if step.Fail? && step.worker in Returning(w, t) && w.calls[step.worker].id < |w.db.rows|
    then {w.calls[step.worker].id} else {}
  }

  lemma RowStaysBehind(w: World, step: Step, timeout: nat, d: nat, t: int, i: nat)
    requires DueSince(w, d, t) && StepAfter(w, step, t)
    requires Next(w, step, timeout, false).db.rows[d] == w.db.rows[d]
    ensures var r := Next(w, step, timeout, false);
            i in Ahead(r, d) ==> i in Ahead(w, d) + Readmitted(w, step, t)
  {
    var r := Next(w, step, timeout, false);
    if step.Queue? {
      assert i < |w.db.rows| ==> r.db.rows[..|w.db.rows|][i] == r.db.rows[i];
    }
  }

  lemma CallsStayAway(w: World, step: Step, timeout: nat, t: int)
    requires Sound(w) && StepAfter(w, step, t)
    ensures Returning(Next(w, step, timeout, false), t) <= Returning(w, t)
    ensures Readmitted(w, step, t) != {} ==> step.worker !in Returning(Next(w, step, timeout, false), t)
  {
  }

  lemma ReturningsAreCounted(w: World, step: Step, timeout: nat, t: int)
    requires Sound(w) && StepAfter(w, step, t)
    ensures |Returning(Next(w, step, timeout, false), t)| + |Readmitted(w, step, t)| <= |Returning(w, t)|
  {
    CallsStayAway(w, step, timeout, t);
    var after := Returning(Next(w, step, timeout, false), t);
    if Readmitted(w, step, t) == {} {
      DeliveryDispatch.SubsetSize(after, Returning(w, t));
    } else {
      DeliveryDispatch.SubsetSize(after, Returning(w, t) - {step.worker});
    }
  }

  /**
   * Whatever another worker does, late or not: while the row of d is left alone, a failing call may
   * bring its one delivery back in front of d, and nothing else gets there.
   */
  lemma StepMovesNothingAhead(w: World, step: Step, timeout: nat, d: nat, t: int)
    requires DueSince(w, d, t) && StepAfter(w, step, t)
    requires Next(w, step, timeout, false).db.rows[d] == w.db.rows[d]
    ensures var r := Next(w, step, timeout, false);
            && DueSince(r, d, t)
            && Ahead(r, d) <= Ahead(w, d) + Readmitted(w, step, t)
            && |Returning(r, t)| + |Readmitted(w, step, t)| <= |Returning(w, t)|
  {
    var r := Next(w, step, timeout, false);
    forall i: nat
      ensures i in Ahead(r, d) ==> i in Ahead(w, d) + Readmitted(w, step, t)
    {
      RowStaysBehind(w, step, timeout, d, t, i);
    }
    ReturningsAreCounted(w, step, timeout, t);
  }

  /** A claim takes its delivery away from those ahead of d. */
  lemma ClaimLeavesAhead(w: World, worker: nat, id: nat, now: int, timeout: nat, d: nat, t: int)
    requires DueSince(w, d, t) && id != d && now > t && worker !in w.calls && now <= w.clock
    ensures var r := Next(w, Take(worker, id, now), timeout, false);
            DueSince(r, d, t) && Ahead(r, d) <= Ahead(w, d) - {id} && |Returning(r, t)| <= |Returning(w, t)|
  {
    var r := Next(w, Take(worker, id, now), timeout, false);
    assert r.db.rows[d] == w.db.rows[d];
    StepMovesNothingAhead(w, Take(worker, id, now), timeout, d, t);
    assert id !in Ahead(r, d);
  }

  /** A free worker's claim of d always changes its row. */
  lemma ClaimHandles(s: Scene, worker: nat, now: int, timeout: nat, limit: nat, d: nat, t: int)
    requires DueSince(s.world, d, t) && Legal(s, ClaimNext(worker, now), limit, t) && s.batch[0] == d
    ensures Handles(s, ClaimNext(worker, now), timeout, d)
  {
  }

  // ----- What rounds cost -----

  ghost predicate InRound(s: Scene, limit: nat) {
    |s.batch| <= limit && (!s.open ==> s.batch == [])
  }

  /**
   * What may still be handled before d: those ahead of it and those that may return, and, unless d is
   * in the batch itself, the whole open round in place of the deliveries of its batch.
   */
  function Debt(s: Scene, limit: nat, d: nat, t: int): nat
    requires d < |s.world.db.rows|
  {
    var ahead := Ahead(s.world, d);
    |Returning(s.world, t)| +
    if d in s.batch then |ahead| else |ahead - DeliveryDispatch.IdSet(s.batch)| + if s.open then limit else 0
  }

  lemma SelectionIsPaidFor(s: Scene, now: int, ids: seq<nat>, limit: nat, d: nat, t: int)
    requires DueSince(s.world, d, t) && InRound(s, limit) && !s.open && now > t
    requires IsDueBatch(s.world.db, now, limit, ids)
    ensures Debt(Scene(s.world, ids, true), limit, d, t) == Debt(s, limit, d, t)
  {
    var w := s.world;
    assert Ahead(w, d) - DeliveryDispatch.IdSet([]) == Ahead(w, d);
    if d !in ids {
      assert Selectable(w.db.rows[d], now);
      DeliveryDispatch.IdSetSize(ids);
      forall id | id in ids
        ensures id in Ahead(w, d)
      {
        var k :| 0 <= k < |ids| && ids[k] == id;
        assert NotAfter(w.db.rows[ids[k]], w.db.rows[d]);
      }
      assert Ahead(w, d) == (Ahead(w, d) - DeliveryDispatch.IdSet(ids)) + DeliveryDispatch.IdSet(ids);
    }
  }

  lemma StepIsPaidFor(s: Scene, step: Step, timeout: nat, limit: nat, d: nat, t: int)
    requires DueSince(s.world, d, t) && InRound(s, limit) && StepAfter(s.world, step, t)
    requires !Handles(s, Others(step), timeout, d)
    ensures var r := Moved(s, Others(step), timeout);
            DueSince(r.world, d, t) && InRound(r, limit) && Debt(r, limit, d, t) <= Debt(s, limit, d, t)
  {
    var r := Moved(s, Others(step), timeout);
    StepMovesNothingAhead(s.world, step, timeout, d, t);
    var came, batch := Readmitted(s.world, step, t), DeliveryDispatch.IdSet(s.batch);
    DeliveryDispatch.SubsetSize(Ahead(r.world, d), Ahead(s.world, d) + came);
    DeliveryDispatch.SubsetSize(Ahead(r.world, d) - batch, (Ahead(s.world, d) - batch) + came);
  }

  lemma FirstLeaves(before: set<nat>, after: set<nat>, ids: seq<nat>)
    requires ids != [] && after <= before - {ids[0]}
    ensures |after| <= |before|
    ensures |after - DeliveryDispatch.IdSet(ids[1..])| <= |before - DeliveryDispatch.IdSet(ids)|
    ensures forall id :: id != ids[0] ==> (id in ids <==> id in ids[1..])
  {
    assert ids == [ids[0]] + ids[1..];
    DeliveryDispatch.SubsetSize(after, before);
    DeliveryDispatch.SubsetSize(after - DeliveryDispatch.IdSet(ids[1..]), before - DeliveryDispatch.IdSet(ids));
  }

  lemma ClaimIsPaidFor(s: Scene, worker: nat, now: int, timeout: nat, limit: nat, d: nat, t: int)
    requires DueSince(s.world, d, t) && InRound(s, limit) && Legal(s, ClaimNext(worker, now), limit, t)
    requires s.batch[0] != d
    ensures var r := Moved(s, ClaimNext(worker, now), timeout);
            DueSince(r.world, d, t) && InRound(r, limit) && Debt(r, limit, d, t) <= Debt(s, limit, d, t)
  {
    var r := Moved(s, ClaimNext(worker, now), timeout);
    ClaimLeavesAhead(s.world, worker, s.batch[0], now, timeout, d, t);
    FirstLeaves(Ahead(s.world, d), Ahead(r.world, d), s.batch);
  }

  lemma KillIsPaidFor(s: Scene, limit: nat, d: nat, t: int)
    requires d < |s.world.db.rows| && InRound(s, limit)
    ensures Debt(Scene(s.world, [], false), limit, d, t) <= Debt(s, limit, d, t)
  {
    var ahead, batch := Ahead(s.world, d), DeliveryDispatch.IdSet(s.batch);
    DeliveryDispatch.IdSetSize(s.batch);
    DeliveryDispatch.SubsetSize(ahead * batch, batch);
    assert ahead == (ahead - batch) + (ahead * batch);
    assert ahead - DeliveryDispatch.IdSet([]) == ahead;
  }

  /** A move that leaves the row of d alone leaves the debt no larger, and a finished round pays off limit. */
  lemma MoveIsPaidFor(s: Scene, move: Move, timeout: nat, limit: nat, d: nat, t: int)
    requires DueSince(s.world, d, t) && InRound(s, limit) && Legal(s, move, limit, t)
    requires !Handles(s, move, timeout, d)
    ensures var r := Moved(s, move, timeout);
            && DueSince(r.world, d, t) && InRound(r, limit)
            && Debt(r, limit, d, t) <= Debt(s, limit, d, t) - if move.Finish? then limit else 0
  {
    match move
    case Others(step) => StepIsPaidFor(s, step, timeout, limit, d, t);
    case Select(now, ids) => SelectionIsPaidFor(s, now, ids, limit, d, t);
    case ClaimNext(worker, now) =>
      if s.batch[0] == d {
        ClaimHandles(s, worker, now, timeout, limit, d, t);
      } else {
        ClaimIsPaidFor(s, worker, now, timeout, limit, d, t);
      }
    case Finish =>
    case Killed => KillIsPaidFor(s, limit, d, t);
  }

  // ----- Whole runs -----

  ghost predicate AllLegal(s: Scene, moves: seq<Move>, timeout: nat, limit: nat, t: int)
    requires Sound(s.world)
    decreases moves
  {
    moves == [] ||
    (Legal(s, moves[0], limit, t) && AllLegal(Moved(s, moves[0], timeout), moves[1..], timeout, limit, t))
  }

  /** Some move changes the row of d. */
  predicate SomeHandles(s: Scene, moves: seq<Move>, timeout: nat, d: nat)
    requires Sound(s.world) && d < |s.world.db.rows|
    decreases moves
  {
    moves != [] &&
    (Handles(s, moves[0], timeout, d) || SomeHandles(Moved(s, moves[0], timeout), moves[1..], timeout, d))
  }

  /** How many rounds the dispatcher finishes. */
  function Finished(moves: seq<Move>): nat {
    if moves == [] then 0 else Finished(moves[1..]) + if moves[0].Finish? then 1 else 0
  }

  lemma {:induction false} RoundsArePaidFor(s: Scene, moves: seq<Move>, timeout: nat, limit: nat, d: nat, t: int)
    requires DueSince(s.world, d, t) && InRound(s, limit)
    requires AllLegal(s, moves, timeout, limit, t) && !SomeHandles(s, moves, timeout, d)
    ensures limit * Finished(moves) <= Debt(s, limit, d, t)
    decreases moves
  {
    if moves != [] {
      MoveIsPaidFor(s, moves[0], timeout, limit, d, t);
      RoundsArePaidFor(Moved(s, moves[0], timeout), moves[1..], timeout, limit, d, t);
      assert limit * (Finished(moves[1..]) + 1) == limit * Finished(moves[1..]) + limit;
    }
  }

  /**
   * Among any other dispatchers and workers, however late, and however often this one is killed, the
   * row of a delivery that is due changes before the dispatcher has finished
   * (ahead + returning) / limit + 1 rounds.
   */
  lemma DueDeliveryIsServedInTime(w: World, moves: seq<Move>, timeout: nat, limit: nat, d: nat, t: int)
    requires DueSince(w, d, t) && limit > 0 && AllLegal(Scene(w, [], false), moves, timeout, limit, t)
    requires Finished(moves) >= (|Ahead(w, d)| + |Returning(w, t)|) / limit + 1
    ensures SomeHandles(Scene(w, [], false), moves, timeout, d)
  {
    DeliveryDispatch.QuotientBound(|Ahead(w, d)| + |Returning(w, t)|, limit, Finished(moves));
    assert Ahead(w, d) - DeliveryDispatch.IdSet([]) == Ahead(w, d);
    if !SomeHandles(Scene(w, [], false), moves, timeout, d) {
      RoundsArePaidFor(Scene(w, [], false), moves, timeout, limit, d, t);
    }
  }

  // ----- Handled means claimed -----

  /** After some move d is being sent, or suppressed by the cooldown. */
  predicate SomeClaims(s: Scene, moves: seq<Move>, timeout: nat, d: nat)
    requires Sound(s.world) && d < |s.world.db.rows|
    decreases moves
  {
    moves != [] &&
    var r := Moved(s, moves[0], timeout);
    r.world.db.rows[d].status.Sending? || r.world.db.rows[d].status.Suppressed?
    || SomeClaims(r, moves[1..], timeout, d)
  }

  /** Without a call in flight, the row of a delivery that is due changes only by its claim. */
  lemma OnlyItsClaimHandles(w: World, step: Step, timeout: nat, d: nat, t: int)
    requires DueSince(w, d, t) && !InFlightOn(w, d)
    ensures var row := Next(w, step, timeout, false).db.rows[d];
            row == w.db.rows[d] || row.status.Sending? || row.status.Suppressed?
  {
    var r := Next(w, step, timeout, false);
    if step.Queue? {
      assert r.db.rows[..|w.db.rows|][d] == r.db.rows[d];
    }
  }

  lemma OnlyItsClaimCalls(w: World, step: Step, timeout: nat, d: nat, t: int)
    requires DueSince(w, d, t) && !InFlightOn(w, d) && Next(w, step, timeout, false).db.rows[d] == w.db.rows[d]
    ensures !InFlightOn(Next(w, step, timeout, false), d)
  {
  }

  lemma MoveClaimsOrLeavesAlone(s: Scene, move: Move, timeout: nat, d: nat, t: int)
    requires DueSince(s.world, d, t) && !InFlightOn(s.world, d)
    ensures var r := Moved(s, move, timeout).world;
            if Handles(s, move, timeout, d) then r.db.rows[d].status.Sending? || r.db.rows[d].status.Suppressed?
            else DueSince(r, d, t) && !InFlightOn(r, d)
  {
    if move.Others? || (move.ClaimNext? && s.batch != []) {
      var step := if move.Others? then move.step else Take(move.worker, s.batch[0], move.now);
      OnlyItsClaimHandles(s.world, step, timeout, d, t);
      if !Handles(s, move, timeout, d) {
        OnlyItsClaimCalls(s.world, step, timeout, d, t);
      }
    }
  }

  lemma {:induction false} HandledIsClaimed(s: Scene, moves: seq<Move>, timeout: nat, d: nat, t: int)
    requires DueSince(s.world, d, t) && !InFlightOn(s.world, d) && SomeHandles(s, moves, timeout, d)
    ensures SomeClaims(s, moves, timeout, d)
    decreases moves
  {
    MoveClaimsOrLeavesAlone(s, moves[0], timeout, d, t);
    if !Handles(s, moves[0], timeout, d) {
      HandledIsClaimed(Moved(s, moves[0], timeout), moves[1..], timeout, d, t);
    }
  }

  /** So a delivery of which no call is in flight is claimed within as many rounds. */
  lemma DueDeliveryIsClaimedInTime(w: World, moves: seq<Move>, timeout: nat, limit: nat, d: nat, t: int)
    requires DueSince(w, d, t) && !InFlightOn(w, d)
    requires limit > 0 && AllLegal(Scene(w, [], false), moves, timeout, limit, t)
    requires Finished(moves) >= (|Ahead(w, d)| + |Returning(w, t)|) / limit + 1
    ensures SomeClaims(Scene(w, [], false), moves, timeout, d)
  {
    DueDeliveryIsServedInTime(w, moves, timeout, limit, d, t);
    HandledIsClaimed(Scene(w, [], false), moves, timeout, d, t);
  }
}
