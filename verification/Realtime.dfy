/**
 * Subscribe before replay. A consumer joins its tenant's group first and replays stored
 * events second, so an event is in the replay, in the mailbox, or in both; the browser
 * remembers the last sequence it saw and asks for the rest when it comes back.
 *
 * Group messages arrive in order and are not lost, events are committed in the order of
 * their sequence numbers, and queued messages wait until connect has finished.
 */
module Realtime {
  import opened Common

  datatype Event = Event(sequence: nat, tenant: nat, body: nat)

  const REPLAY_LIMIT := 500

  /** The events of a tenant after a sequence number, oldest first. */
  function Since(log: seq<Event>, tenant: nat, cursor: nat): seq<Event> {
    if log == [] then []
    else
      var last := log[|log| - 1];
      Since(log[..|log| - 1], tenant, cursor)
      + if last.tenant == tenant && last.sequence > cursor then [last] else []
  }

  function Replayed(log: seq<Event>, tenant: nat, cursor: nat): seq<Event> {
    var events := Since(log, tenant, cursor);
    events[..Min(REPLAY_LIMIT, |events|)]
  }

  /**
   * The connection: absent; in the group but not yet replayed; or live. The socket holds
   * what was sent and not yet read by the browser, the mailbox what the group delivered and
   * the consumer has not handled.
   */
  datatype Link =
    | Closed
    | Joined(mailbox: seq<Event>)
    | Live(socket: seq<Event>, mailbox: seq<Event>)

  function Mailed(link: Link, e: Event): Link {
    match link
    case Closed => link
    case Joined(mailbox) => Joined(mailbox + [e])
    case Live(socket, mailbox) => Live(socket, mailbox + [e])
  }

  datatype World = World(log: seq<Event>, tenant: nat, link: Link, cursor: nat, received: seq<Event>)

  datatype Step =
    | Publish(sequence: nat, tenant: nat, body: nat)
    | Join
    | Replay
    | Handle
    | Receive
    | Drop

  predicate NewSequence(log: seq<Event>, sequence: nat) {
    sequence > 0 && (log != [] ==> sequence > log[|log| - 1].sequence)
  }

  function Next(w: World, step: Step): World {
    match step
    case Publish(sequence, tenant, body) =>
      if !NewSequence(w.log, sequence) then w
      else
        var e := Event(sequence, tenant, body);
        w.(log := w.log + [e], link := if tenant == w.tenant then Mailed(w.link, e) else w.link)
    case Join => if w.link.Closed? then w.(link := Joined([])) else w
    case Replay =>
      if w.link.Joined? then w.(link := Live(Replayed(w.log, w.tenant, w.cursor), w.link.mailbox)) else w
    case Handle =>
      if w.link.Live? && w.link.mailbox != []
      then w.(link := Live(w.link.socket + [w.link.mailbox[0]], w.link.mailbox[1..])) else w
    case Receive =>
      if w.link.Live? && w.link.socket != []
      then
        var e := w.link.socket[0];
        w.(link := Live(w.link.socket[1..], w.link.mailbox),
           cursor := if e.sequence > 0 then e.sequence else w.cursor,
           received := w.received + [e])
      else w
    case Drop => w.(link := Closed)
  }

  function Run(w: World, steps: seq<Step>): World {
    if steps == [] then w else Next(Run(w, steps[..|steps| - 1]), steps[|steps| - 1])
  }

  // ----- Backlogs -----

  predicate Increasing(log: seq<Event>) {
    && (forall i :: 0 <= i < |log| ==> log[i].sequence > 0)
    && forall i, j :: 0 <= i < j < |log| ==> log[i].sequence < log[j].sequence
  }

  lemma {:induction false} SinceMembers(log: seq<Event>, tenant: nat, cursor: nat)
    ensures forall e :: e in Since(log, tenant, cursor) <==> e in log && e.tenant == tenant && e.sequence > cursor
  {
    if log != [] {
      SinceMembers(log[..|log| - 1], tenant, cursor);
      assert log == log[..|log| - 1] + [log[|log| - 1]];
    }
  }

  lemma LastIsNewest(log: seq<Event>)
    requires Increasing(log) && log != []
    ensures Increasing(log[..|log| - 1])
    ensures forall e :: e in log[..|log| - 1] ==> e.sequence < log[|log| - 1].sequence
  {
  }

  lemma AppendedIncreasing(log: seq<Event>, e: Event)
    requires Increasing(log) && e.sequence > 0 && forall x :: x in log ==> x.sequence < e.sequence
    ensures Increasing(log + [e])
  {
  }

  lemma {:induction false} SinceIncreasing(log: seq<Event>, tenant: nat, cursor: nat)
    requires Increasing(log)
    ensures Increasing(Since(log, tenant, cursor))
  {
    if log != [] {
      var init, last := log[..|log| - 1], log[|log| - 1];
      LastIsNewest(log);
      SinceIncreasing(init, tenant, cursor);
      SinceMembers(init, tenant, cursor);
      AppendedIncreasing(Since(init, tenant, cursor), last);
    }
  }

  lemma {:induction false} SinceConcat(a: seq<Event>, b: seq<Event>, tenant: nat, cursor: nat)
    ensures Since(a + b, tenant, cursor) == Since(a, tenant, cursor) + Since(b, tenant, cursor)
  {
    if b == [] {
      assert a + b == a;
    } else {
      assert (a + b)[..|a + b| - 1] == a + b[..|b| - 1];
      SinceConcat(a, b[..|b| - 1], tenant, cursor);
    }
  }

  // ----- No gaps -----

  /** The newest sequence number stored. */
  function Last(log: seq<Event>): nat {
    if log == [] then 0 else log[|log| - 1].sequence
  }

  /** The event is one the browser is owed: its tenant's, after the cursor it started with. */
  predicate Owed(w: World, origin: nat, e: Event) {
    e in w.log && e.tenant == w.tenant && e.sequence > origin
  }

  function Pending(link: Link): seq<Event> {
    match link
    case Live(socket, mailbox) => socket + mailbox
    case _ => []
  }

  /** What is pending is owed, and nothing owed comes after something newer. */
  ghost predicate PendingWithoutGap(w: World, origin: nat, pending: seq<Event>) {
    && (forall i, e :: 0 <= i < |pending| && Owed(w, origin, e) && e.sequence < pending[i].sequence ==>
          e in w.received || e in pending[..i])
    && (forall e :: e in pending ==> Owed(w, origin, e))
    && forall e :: Owed(w, origin, e) ==> e in w.received || e in pending
  }

  /** The consumer joined when the log had n events: the mailbox holds exactly what came after. */
  predicate JoinedAt(w: World, n: nat, mailbox: seq<Event>) {
    && n <= |w.log|
    && mailbox == Since(w.log[n..], w.tenant, 0)
    && forall i :: n <= i < |w.log| ==> w.log[i].sequence > w.cursor
  }

  predicate Within(log: seq<Event>, tenant: nat, cursor: nat) {
    |Since(log, tenant, cursor)| <= REPLAY_LIMIT
  }

  ghost predicate MailboxIsRecent(w: World, mailbox: seq<Event>) {
    exists n: nat :: JoinedAt(w, n, mailbox) && Within(w.log[..n], w.tenant, w.cursor)
  }

  ghost predicate NoGap(w: World, origin: nat) {
    && Increasing(w.log)
    && origin <= w.cursor <= Last(w.log)
    && (forall e :: Owed(w, origin, e) && e.sequence <= w.cursor ==> e in w.received)
    && (forall e :: e in w.received ==> Owed(w, origin, e))
    && (w.link.Live? ==> PendingWithoutGap(w, origin, Pending(w.link)))
    && (w.link.Joined? ==> MailboxIsRecent(w, w.link.mailbox))
  }

  lemma PublishedIsNewest(w: World, step: Step, origin: nat)
    requires Increasing(w.log) && step.Publish? && NewSequence(w.log, step.sequence)
    ensures Increasing(Next(w, step).log)
    ensures forall e :: e in w.log ==> e.sequence < step.sequence
    ensures forall e :: e in Next(w, step).log <==> e in w.log || e == Event(step.sequence, step.tenant, step.body)
  {
  }

  lemma PublishToLive(w: World, step: Step, origin: nat)
    requires NoGap(w, origin) && step.Publish? && NewSequence(w.log, step.sequence) && w.link.Live?
    ensures NoGap(Next(w, step), origin)
  {
    PublishedIsNewest(w, step, origin);
    var r, e := Next(w, step), Event(step.sequence, step.tenant, step.body);
    var p, q := Pending(w.link), Pending(r.link);
    assert q == if step.tenant == w.tenant then p + [e] else p;
    forall i, x | 0 <= i < |q| && Owed(r, origin, x) && x.sequence < q[i].sequence
      ensures x in r.received || x in q[..i]
    {
      if i < |p| {
        assert q[..i] == p[..i] && q[i] == p[i] && q[i] in p;
      } else {
        assert q[..i] == p;
      }
    }
  }

  lemma PublishToMailbox(w: World, step: Step, n: nat, mailbox: seq<Event>)
    requires step.Publish? && NewSequence(w.log, step.sequence) && w.cursor <= Last(w.log)
    requires w.link == Joined(mailbox) && JoinedAt(w, n, mailbox)
    ensures Next(w, step).link.Joined? && Next(w, step).log[..n] == w.log[..n]
    ensures JoinedAt(Next(w, step), n, Next(w, step).link.mailbox)
  {
    var e := Event(step.sequence, step.tenant, step.body);
    SinceOfLonger(w.log, e, n, w.tenant);
  }

  lemma SinceOfLonger(log: seq<Event>, e: Event, n: nat, tenant: nat)
    requires n <= |log|
    ensures (log + [e])[..n] == log[..n]
    ensures Since((log + [e])[n..], tenant, 0)
         == Since(log[n..], tenant, 0) + if e.tenant == tenant && e.sequence > 0 then [e] else []
  {
    assert (log + [e])[n..] == log[n..] + [e];
    assert (log[n..] + [e])[..|log[n..]|] == log[n..];
  }

  lemma PublishKeepsNoGap(w: World, step: Step, origin: nat)
    requires NoGap(w, origin) && step.Publish?
    ensures NoGap(Next(w, step), origin)
  {
    if NewSequence(w.log, step.sequence) {
      match w.link
      case Live(_, _) => PublishToLive(w, step, origin);
      case Joined(mailbox) =>
        PublishedIsNewest(w, step, origin);
        var n: nat :| JoinedAt(w, n, mailbox) && Within(w.log[..n], w.tenant, w.cursor);
        PublishToMailbox(w, step, n, mailbox);
      case Closed => PublishedIsNewest(w, step, origin);
    }
  }

  /** The backlog at the replay is the backlog at the join, then the mailbox. */
  lemma BacklogThenMailbox(w: World, n: nat, mailbox: seq<Event>)
    requires Increasing(w.log) && JoinedAt(w, n, mailbox)
    ensures Since(w.log, w.tenant, w.cursor) == Since(w.log[..n], w.tenant, w.cursor) + mailbox
    ensures Increasing(Since(w.log, w.tenant, w.cursor))
    ensures forall e :: e in Since(w.log, w.tenant, w.cursor) <==> Owed(w, w.cursor, e)
  {
    assert w.log == w.log[..n] + w.log[n..];
    SinceConcat(w.log[..n], w.log[n..], w.tenant, w.cursor);
    CursorIsBehind(w.log[n..], w.tenant, w.cursor);
    SinceIncreasing(w.log, w.tenant, w.cursor);
    SinceMembers(w.log, w.tenant, w.cursor);
  }

  lemma {:induction false} CursorIsBehind(log: seq<Event>, tenant: nat, cursor: nat)
    requires forall i :: 0 <= i < |log| ==> log[i].sequence > cursor
    ensures Since(log, tenant, cursor) == Since(log, tenant, 0)
  {
    if log != [] {
      CursorIsBehind(log[..|log| - 1], tenant, cursor);
    }
  }

  /** A prefix of an increasing sequence, then a suffix that overlaps or meets it, skips nothing. */
  lemma OverlapSkipsNothing(events: seq<Event>, b: nat, k: nat, i: nat, e: Event)
    requires Increasing(events) && b <= k <= |events| && i < k + |events| - b && e in events
    requires e.sequence < (events[..k] + events[b..])[i].sequence
    ensures e in (events[..k] + events[b..])[..i]
  {
    var stream := events[..k] + events[b..];
    var m :| 0 <= m < |events| && events[m] == e;
    if i < k || m < b {
      assert stream[..i][m] == e;
    } else {
      assert stream[..i][k + m - b] == e;
    }
  }

  /** The first k events of the backlog, then the backlog from b on: nothing is skipped, nothing is left out. */
  lemma StreamWithoutGap(w: World, origin: nat, events: seq<Event>, b: nat, k: nat)
    requires Increasing(events) && b <= k <= |events| && w.cursor >= origin
    requires forall e :: e in events <==> Owed(w, w.cursor, e)
    requires forall e :: Owed(w, origin, e) && e.sequence <= w.cursor ==> e in w.received
    ensures PendingWithoutGap(w, origin, events[..k] + events[b..])
  {
    var stream := events[..k] + events[b..];
    forall i, e | 0 <= i < |stream| && Owed(w, origin, e) && e.sequence < stream[i].sequence
      ensures e in w.received || e in stream[..i]
    {
      if e.sequence > w.cursor {
        assert Owed(w, w.cursor, e);
        OverlapSkipsNothing(events, b, k, i, e);
      }
    }
    StreamHasAll(events, b, k);
    forall e | e in stream
      ensures Owed(w, origin, e)
    {
      assert e in events;
    }
    forall e | Owed(w, origin, e)
      ensures e in w.received || e in stream
    {
      assert e.sequence > w.cursor ==> e in events;
    }
  }

  lemma ReplayKeepsNoGap(w: World, origin: nat)
    requires NoGap(w, origin) && w.link.Joined?
    ensures NoGap(Next(w, Replay), origin)
  {
    var mailbox := w.link.mailbox;
    var n: nat :| JoinedAt(w, n, mailbox) && Within(w.log[..n], w.tenant, w.cursor);
    BacklogThenMailbox(w, n, mailbox);
    var events, r := Since(w.log, w.tenant, w.cursor), Next(w, Replay);
    var b, k := |Since(w.log[..n], w.tenant, w.cursor)|, |Replayed(w.log, w.tenant, w.cursor)|;
    assert Pending(r.link) == events[..k] + events[b..];
    StreamWithoutGap(w, origin, events, b, k);
    SameOwed(w, r, origin);
  }

  lemma SameOwed(w: World, r: World, origin: nat)
    requires r.log == w.log && r.tenant == w.tenant && r.received == w.received
    ensures forall p :: PendingWithoutGap(w, origin, p) ==> PendingWithoutGap(r, origin, p)
    ensures forall e :: Owed(r, origin, e) <==> Owed(w, origin, e)
  {
  }

  lemma StreamHasAll(events: seq<Event>, b: nat, k: nat)
    requires b <= k <= |events|
    ensures forall e :: e in events <==> e in events[..k] + events[b..]
  {
    assert events == events[..k] + events[k..];
    assert events[b..] == events[b..k] + events[k..];
  }

  lemma HandleKeepsNoGap(w: World, origin: nat)
    requires NoGap(w, origin) && w.link.Live? && w.link.mailbox != []
    ensures Pending(Next(w, Handle).link) == Pending(w.link)
    ensures NoGap(Next(w, Handle), origin)
  {
    var r := Next(w, Handle);
    assert w.link.mailbox == [w.link.mailbox[0]] + w.link.mailbox[1..];
    assert Pending(r.link) == Pending(w.link);
    assert forall e :: Owed(r, origin, e) <==> Owed(w, origin, e);
  }

  lemma TailMembers(p: seq<Event>, i: nat)
    requires i < |p|
    ensures forall e :: e in p[..i + 1] ==> e == p[0] || e in p[1..][..i]
  {
    assert p[..i + 1] == [p[0]] + p[1..][..i];
  }

  /** Reading the oldest pending event leaves nothing behind. */
  lemma ReadingLeavesNoGap(w: World, r: World, origin: nat, p: seq<Event>)
    requires PendingWithoutGap(w, origin, p) && p != []
    requires r.log == w.log && r.tenant == w.tenant && r.received == w.received + [p[0]]
    ensures PendingWithoutGap(r, origin, p[1..])
  {
    var rest := p[1..];
    assert forall e :: Owed(r, origin, e) <==> Owed(w, origin, e);
    assert forall e :: e in r.received <==> e in w.received || e == p[0];
    assert forall e :: e in p <==> e == p[0] || e in rest by {
      assert p == [p[0]] + rest;
    }
    forall i, e | 0 <= i < |rest| && Owed(r, origin, e) && e.sequence < rest[i].sequence
      ensures e in r.received || e in rest[..i]
    {
      TailMembers(p, i);
      assert p[i + 1] == rest[i];
    }
  }

  lemma NothingBeforeTheHead(w: World, origin: nat, p: seq<Event>, e: Event)
    requires Increasing(w.log) && PendingWithoutGap(w, origin, p) && p != []
    requires Owed(w, origin, e) && e.sequence <= p[0].sequence
    ensures e in w.received + [p[0]]
  {
    assert Owed(w, origin, p[0]) && p[..0] == [];
  }

  lemma ReceiveKeepsNoGap(w: World, origin: nat)
    requires NoGap(w, origin) && w.link.Live? && w.link.socket != []
    ensures NoGap(Next(w, Receive), origin)
  {
    var r, p := Next(w, Receive), Pending(w.link);
    assert Pending(r.link) == p[1..] && Owed(w, origin, p[0]);
    ReadingLeavesNoGap(w, r, origin, p);
    forall e | Owed(r, origin, e) && e.sequence <= r.cursor
      ensures e in r.received
    {
      assert Owed(w, origin, e);
      NothingBeforeTheHead(w, origin, p, e);
    }
  }

  /** A browser that joins has missed at most a replay's worth of events. */
  predicate ShortBacklog(w: World, step: Step) {
    step.Join? && w.link.Closed? ==> Within(w.log, w.tenant, w.cursor)
  }

  lemma StepKeepsNoGap(w: World, step: Step, origin: nat)
    requires NoGap(w, origin) && ShortBacklog(w, step)
    ensures NoGap(Next(w, step), origin)
  {
    var r := Next(w, step);
    match step
    case Publish(_, _, _) => PublishKeepsNoGap(w, step, origin);
    case Join =>
      if w.link.Closed? {
        assert w.log[..|w.log|] == w.log && JoinedAt(r, |w.log|, []);
      }
    case Replay => if w.link.Joined? { ReplayKeepsNoGap(w, origin); }
    case Handle => if w.link.Live? && w.link.mailbox != [] { HandleKeepsNoGap(w, origin); }
    case Receive => if w.link.Live? && w.link.socket != [] { ReceiveKeepsNoGap(w, origin); }
    case Drop =>
  }

  ghost predicate ShortBacklogs(w: World, steps: seq<Step>) {
    forall i :: 0 <= i < |steps| ==> ShortBacklog(Run(w, steps[..i]), steps[i])
  }

  /** Across any run of publications, connections and losses: nothing up to the cursor was missed. */
  lemma {:induction false} RunKeepsNoGap(w: World, steps: seq<Step>, origin: nat)
    requires NoGap(w, origin) && ShortBacklogs(w, steps)
    ensures NoGap(Run(w, steps), origin)
    decreases |steps|
  {
    if steps != [] {
      var init := steps[..|steps| - 1];
      forall i | 0 <= i < |init|
        ensures ShortBacklog(Run(w, init[..i]), init[i])
      {
        assert init[..i] == steps[..i] && init[i] == steps[i];
      }
      RunKeepsNoGap(w, init, origin);
      StepKeepsNoGap(Run(w, init), steps[|steps| - 1], origin);
    }
  }

  /** Starting from nothing received: what the browser has is its tenant's events, all of them up to its cursor. */
  lemma NoEventIsSkipped(w: World, steps: seq<Step>)
    requires Increasing(w.log) && w.cursor <= Last(w.log) && w.link == Closed && w.received == []
    requires ShortBacklogs(w, steps)
    ensures var r := Run(w, steps);
            && (forall e :: Owed(r, w.cursor, e) && e.sequence <= r.cursor ==> e in r.received)
            && (forall e :: e in r.received ==> Owed(r, w.cursor, e))
            && (Pending(r.link) == [] && r.link.Live? ==> forall e :: Owed(r, w.cursor, e) <==> e in r.received)
  {
    RunKeepsNoGap(w, steps, w.cursor);
  }

  lemma HandlingKeepsThePending(w: World)
    requires w.link.Live? && w.link.mailbox != []
    ensures var r := Next(w, Handle);
            && r == w.(link := r.link) && r.link.Live?
            && Pending(r.link) == Pending(w.link) && |r.link.mailbox| == |w.link.mailbox| - 1
  {
    assert w.link.mailbox == [w.link.mailbox[0]] + w.link.mailbox[1..];
  }

  lemma ReceivingTakesTheHead(w: World)
    requires w.link.Live? && w.link.socket != []
    ensures var r := Next(w, Receive);
            && r.link.Live? && r.log == w.log && r.tenant == w.tenant && r.link.mailbox == w.link.mailbox
            && r.received + Pending(r.link) == w.received + Pending(w.link)
            && |Pending(r.link)| == |Pending(w.link)| - 1
  {
    assert w.link.socket == [w.link.socket[0]] + w.link.socket[1..];
  }

  /** Handling the mailbox and reading the socket, until both are empty. */
  function Drained(w: World): World
    decreases |Pending(w.link)|, if w.link.Live? then |w.link.mailbox| else 0
  {
    if !w.link.Live? || Pending(w.link) == [] then w
    else if w.link.mailbox != [] then
      HandlingKeepsThePending(w);
      Drained(Next(w, Handle))
    else
      ReceivingTakesTheHead(w);
      Drained(Next(w, Receive))
  }

  lemma {:induction false} DrainReceivesThePending(w: World)
    requires w.link.Live?
    ensures Drained(w).received == w.received + Pending(w.link)
    ensures Drained(w).link == Live([], []) && Drained(w).log == w.log && Drained(w).tenant == w.tenant
    decreases |Pending(w.link)|, |w.link.mailbox|
  {
    if Pending(w.link) == [] {
      assert w.received + [] == w.received;
    } else if w.link.mailbox != [] {
      HandlingKeepsThePending(w);
      DrainReceivesThePending(Next(w, Handle));
    } else {
      ReceivingTakesTheHead(w);
      DrainReceivesThePending(Next(w, Receive));
    }
  }

  /** Draining a live connection delivers exactly the committed events the browser is owed. */
  lemma DrainingDeliversAll(w: World, steps: seq<Step>)
    requires Increasing(w.log) && w.cursor <= Last(w.log) && w.link == Closed && w.received == []
    requires ShortBacklogs(w, steps) && Run(w, steps).link.Live?
    ensures var r := Run(w, steps); forall e :: Owed(r, w.cursor, e) <==> e in Drained(r).received
  {
    RunKeepsNoGap(w, steps, w.cursor);
    DrainReceivesThePending(Run(w, steps));
  }

  // ----- What the replay limit costs -----

  lemma {:induction false} JoinThenPublish(w: World, publications: seq<Step>)
    requires Increasing(w.log) && w.cursor <= Last(w.log) && w.link == Closed
    requires forall i :: 0 <= i < |publications| ==> publications[i].Publish?
    ensures var r := Run(Next(w, Join), publications);
            && r.link.Joined? && JoinedAt(r, |w.log|, r.link.mailbox) && r.log[..|w.log|] == w.log
            && Increasing(r.log) && r.cursor == w.cursor <= Last(r.log)
            && r.tenant == w.tenant && r.received == w.received
  {
    var joined := Next(w, Join);
    if publications == [] {
      assert w.log[..|w.log|] == w.log && JoinedAt(joined, |w.log|, []);
    } else {
      var init, step := publications[..|publications| - 1], publications[|publications| - 1];
      JoinThenPublish(w, init);
      var before := Run(joined, init);
      if NewSequence(before.log, step.sequence) {
        PublishToMailbox(before, step, |w.log|, before.link.mailbox);
        PublishedIsNewest(before, step, 0);
      }
    }
  }

  /**
   * One connection, with any publications between the join and the replay: draining it brings
   * everything since the cursor exactly when the backlog at the join fitted the replay.
   */
  lemma ConnectionIsCompleteExactlyWithinTheLimit(w: World, publications: seq<Step>)
    requires Increasing(w.log) && w.cursor <= Last(w.log) && w.link == Closed && w.received == []
    requires forall i :: 0 <= i < |publications| ==> publications[i].Publish?
    ensures var live := Next(Run(Next(w, Join), publications), Replay);
            (forall e :: Owed(live, w.cursor, e) ==> e in Drained(live).received)
            <==> |Since(w.log, w.tenant, w.cursor)| <= 500
  {
    var ready := Run(Next(w, Join), publications);
    var live := Next(ready, Replay);
    JoinThenPublish(w, publications);
    var mailbox := ready.link.mailbox;
    BacklogThenMailbox(ready, |w.log|, mailbox);
    DrainReceivesThePending(live);
    var events, b := Since(ready.log, w.tenant, w.cursor), |Since(w.log, w.tenant, w.cursor)|;
    var k := Min(REPLAY_LIMIT, |events|);
    assert Drained(live).received == events[..k] + events[b..];
    assert forall e :: Owed(live, w.cursor, e) <==> e in events;
    if b <= REPLAY_LIMIT {
      StreamHasAll(events, b, k);
    } else {
      assert events[k] in events && events[k] !in events[..k] && events[k] !in events[b..];
    }
  }

  // ----- The table, the consumer and the browser at work -----

  /** Sends the events one by one, up to the limit. */
  method SendFirst(events: seq<Event>) returns (sent: seq<Event>)
    ensures sent == events[..Min(REPLAY_LIMIT, |events|)]
  {
    sent := [];
    var n := 0;
    while n < |events| && n < REPLAY_LIMIT
      invariant n <= |events| && n <= REPLAY_LIMIT && sent == events[..n]
    {
      sent := sent + [events[n]];
      n := n + 1;
    }
  }

  /**
   * The event table, the consumer of one browser's connection and that browser. Each method is
   * one step; together they keep the promise that nothing was skipped since origin.
   */
  class Session {
    var log: seq<Event>
    const tenant: nat
    var link: Link
    var cursor: nat
    var received: seq<Event>
    ghost const origin: nat

    function State(): World
      reads this
    {
      World(log, tenant, link, cursor, received)
    }

    ghost predicate Valid()
      reads this
    {
      NoGap(State(), origin)
    }

    constructor (log: seq<Event>, tenant: nat, cursor: nat)
      requires Increasing(log) && cursor <= Last(log)
      ensures Valid() && State() == World(log, tenant, Closed, cursor, []) && origin == cursor
    {
      this.log, this.tenant, this.link, this.cursor, this.received := log, tenant, Closed, cursor, [];
      origin := cursor;
    }

    /** publish: the row is stored, and once it is committed the tenant's group gets it. */
    method PublishEvent(sequence: nat, owner: nat, body: nat)
      requires Valid() && NewSequence(log, sequence)
      modifies this`log, this`link
      ensures Valid() && State() == Next(old(State()), Publish(sequence, owner, body))
    {
      ghost var after := Next(State(), Publish(sequence, owner, body));
      assert NoGap(after, origin) by { PublishKeepsNoGap(State(), Publish(sequence, owner, body), origin); }
      var e := Event(sequence, owner, body);
      log := log + [e];
      if owner == tenant {
        Deliver(e);
      }
      assert State() == after;
    }

    /** The group hands an event to the consumer, if there is one. */
    method Deliver(e: Event)
      modifies this`link
      ensures link == Mailed(old(link), e)
    {
      match link
      case Closed =>
      case Joined(mailbox) => link := Joined(mailbox + [e]);
      case Live(socket, mailbox) => link := Live(socket, mailbox + [e]);
    }

    /** The first half of connect: joining the group. */
    method JoinGroup()
      requires Valid() && link.Closed?
      modifies this`link
      ensures State() == Next(old(State()), Join)
      ensures Within(log, tenant, cursor) ==> Valid()
    {
      if Within(log, tenant, cursor) {
        StepKeepsNoGap(State(), Join, origin);
      }
      link := Joined([]);
    }

    /** The second half of connect: sending the stored events after the cursor. */
    method SendReplay()
      requires Valid() && link.Joined?
      modifies this`link
      ensures Valid() && State() == Next(old(State()), Replay)
    {
      ghost var after := Next(State(), Replay);
      assert NoGap(after, origin) by { ReplayKeepsNoGap(State(), origin); }
      var sent := SendFirst(Since(log, tenant, cursor));
      link := Live(sent, link.mailbox);
      assert State() == after;
    }

    /** tenant_event: the oldest queued message is sent. */
    method HandleNext()
      requires Valid() && link.Live? && link.mailbox != []
      modifies this`link
      ensures Valid() && State() == Next(old(State()), Handle)
    {
      HandleKeepsNoGap(State(), origin);
      link := Live(link.socket + [link.mailbox[0]], link.mailbox[1..]);
    }

    /** The browser's onmessage. */
    method OnMessage()
      requires Valid() && link.Live? && link.socket != []
      modifies this`link, this`cursor, this`received
      ensures Valid() && State() == Next(old(State()), Receive)
    {
      ReceiveKeepsNoGap(State(), origin);
      var e := link.socket[0];
      link := Live(link.socket[1..], link.mailbox);
      if e.sequence != 0 {
        cursor := e.sequence;
      }
      received := received + [e];
    }

    /** The connection ends; what was not read is gone. */
    method Disconnect()
      requires Valid()
      modifies this`link
      ensures Valid() && State() == Next(old(State()), Drop)
    {
      StepKeepsNoGap(State(), Drop, origin);
      link := Closed;
    }

    /** Handling and reading until nothing is pending: then the browser has everything it is owed. */
    method Drain()
      requires Valid() && link.Live?
      modifies this`link, this`cursor, this`received
      ensures Valid() && State() == Drained(old(State()))
      ensures forall e :: Owed(State(), origin, e) <==> e in received
    {
      ghost var start := State();
      while link.mailbox != [] || link.socket != []
        invariant Valid() && link.Live? && Drained(State()) == Drained(start)
        decreases |Pending(link)|, |link.mailbox|
      {
        if link.mailbox != [] {
          HandlingKeepsThePending(State());
          HandleNext();
        } else {
          ReceivingTakesTheHead(State());
          OnMessage();
        }
      }
    }
  }
}
