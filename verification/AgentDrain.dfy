/**
 * When the spool drains: a batch that the server refuses for good stays in it, and at the head
 * it stops the agent altogether; every other batch can leave.
 */
module AgentDrain {
  import opened Common
  import opened SpoolQueue
  import opened Agent
  import opened AgentSpool
  import Ingest

  // ----- One row -----

  /** A turn of the flush deletes its row exactly when it is acknowledged. */
  lemma RowLeavesExactlyWhenAcknowledged(b: Agent, cfg: Config, reply: Reply, now: int)
    requires Ordered(b.queue) && b.queue.rows != [] && cfg.machine < |b.store.machines|
    ensures FlushedOne(b, cfg, b.queue.rows[0], reply, now).0.queue.rows
         == if Acknowledged(b.store, cfg, b.queue.rows[0], reply) then b.queue.rows[1..] else b.queue.rows
  {
    DeleteHead(b.queue);
  }

  lemma RejectedHeadBlocksCycle(a: Agent, cfg: Config, s: Script)
    requires cfg.machine < |a.store.machines| && Ordered(a.queue)
    requires a.queue.rows != [] && !Takes(a.store, cfg, a.queue.rows[0].payload)
    ensures var r := Cycled(a, cfg, s);
            r.queue == a.queue && r.collected == a.collected && r.store == a.store
  {
    var b := Greeted(a, cfg, s).0;
    assert b == a.(machineId := b.machineId, lastHeartbeat := b.lastHeartbeat);
    var entries := Peeked(b.queue, PEEK);
    assert entries[0] == b.queue.rows[0];
    assert FlushedOne(b, cfg, entries[0], ReplyAt(s.flush, 0), s.now).1.Some?;
  }

  /** A batch that the server refuses for good stays at the head of the spool, and stops collection with it. */
  lemma {:induction false} RejectedHeadBlocksForever(a: Agent, cfg: Config, scripts: seq<Script>)
    requires cfg.machine < |a.store.machines| && Ordered(a.queue)
    requires a.queue.rows != [] && !Takes(a.store, cfg, a.queue.rows[0].payload)
    ensures var r := Run(a, cfg, scripts);
            r.queue == a.queue && r.collected == a.collected && r.store == a.store
  {
    if scripts != [] {
      RejectedHeadBlocksForever(a, cfg, scripts[..|scripts| - 1]);
      RejectedHeadBlocksCycle(Run(a, cfg, scripts[..|scripts| - 1]), cfg, scripts[|scripts| - 1]);
    }
  }

  /** The run leaves the queue as it is. */
  predicate QueueStays(a: Agent, cfg: Config, scripts: seq<Script>)
    requires cfg.machine < |a.store.machines|
  {
    Run(a, cfg, scripts).queue == a.queue
  }

  /** A cycle whose first request is acknowledged and whose second is lost. */
  const ONE_REPLY :=
    Script(0, 0, Alive(None), Alive(None), [Reply(Reached(true, true), Goes), Reply(Lost(true), Goes)],
           CollectorRaises, Reply(Lost(true), Goes), Commits)

  lemma OneAcknowledgement(store: Ingest.Db, cfg: Config, entries: seq<Entry<Batch>>)
    requires cfg.machine < |store.machines| && entries != [] && Takes(store, cfg, entries[0].payload)
    ensures Acknowledgements(store, cfg, entries, ONE_REPLY, 0) == 1
  {
    assert ReplyAt(ONE_REPLY.flush, 0) == Reply(Reached(true, true), Goes);
    assert !ReplyAt(ONE_REPLY.flush, 1).net.Reached?;
    assert Acknowledgements(store, cfg, entries, ONE_REPLY, 1) == 0;
  }

  lemma OneReplySendsTheHead(a: Agent, cfg: Config)
    requires cfg.machine < |a.store.machines| && Ordered(a.queue)
    requires a.queue.rows != [] && Takes(a.store, cfg, a.queue.rows[0].payload)
    ensures Cycled(a, cfg, ONE_REPLY).queue == Queue(a.queue.rows[1..], a.queue.nextId)
  {
    var b := Greeted(a, cfg, ONE_REPLY).0;
    assert b.queue == a.queue && b.store == a.store;
    var entries := Peeked(a.queue, PEEK);
    OneAcknowledgement(a.store, cfg, entries);
    FlushOnQueue(b, cfg, entries, ONE_REPLY, 0);
    CycleByParts(a, cfg, ONE_REPLY);
  }

  lemma RunOfOne(a: Agent, cfg: Config, s: Script)
    requires cfg.machine < |a.store.machines|
    ensures Run(a, cfg, [s]) == Cycled(a, cfg, s)
  {
    assert [s][..0] == [];
  }

  /** The queue can lose its head at all exactly when the server takes that batch. */
  lemma QueueStaysExactlyWhenHeadIsRefused(a: Agent, cfg: Config)
    requires cfg.machine < |a.store.machines| && Ordered(a.queue) && a.queue.rows != []
    ensures (forall scripts :: QueueStays(a, cfg, scripts)) <==> !Takes(a.store, cfg, a.queue.rows[0].payload)
  {
    if Takes(a.store, cfg, a.queue.rows[0].payload) {
      OneReplySendsTheHead(a, cfg);
      RunOfOne(a, cfg, ONE_REPLY);
      assert !QueueStays(a, cfg, [ONE_REPLY]);
    } else {
      forall scripts
        ensures QueueStays(a, cfg, scripts)
      {
        RejectedHeadBlocksForever(a, cfg, scripts);
      }
    }
  }

  // ----- The whole spool -----

  /** Some run of the agent empties its spool. */
  predicate Drains(a: Agent, cfg: Config, scripts: seq<Script>)
    requires cfg.machine < |a.store.machines|
  {
    Run(a, cfg, scripts).queue.rows == []
  }

  lemma {:induction false} FlushKeepsVerdicts(a: Agent, cfg: Config, entries: seq<Entry<Batch>>, s: Script, k: nat,
                                              b: Batch)
    requires cfg.machine < |a.store.machines| && k <= |entries|
    ensures Takes(Flushed(a, cfg, entries, s, k).0.store, cfg, b) == Takes(a.store, cfg, b)
    decreases |entries| - k
  {
    if k < |entries| {
      var reply := ReplyAt(s.flush, k);
      SendingKeepsVerdicts(a.store, cfg, entries[k].payload, reply.net, s.now, b);
      var turn := FlushedOne(a, cfg, entries[k], reply, s.now);
      if turn.1.None? {
        FlushKeepsVerdicts(turn.0, cfg, entries, s, k + 1, b);
      }
    }
  }

  lemma DeliveryKeepsVerdicts(a: Agent, cfg: Config, s: Script, b: Batch)
    requires cfg.machine < |a.store.machines|
    ensures Takes(Delivered(a, cfg, s).0.store, cfg, b) == Takes(a.store, cfg, b)
  {
    if s.collection.Got? {
      SendingKeepsVerdicts(a.store, cfg, Batch(a.machineId, a.nextUuid, s.collection.readings), s.live.net, s.now, b);
    }
  }

  lemma CycleKeepsVerdicts(a: Agent, cfg: Config, s: Script, b: Batch)
    requires cfg.machine < |a.store.machines|
    ensures Takes(Cycled(a, cfg, s).store, cfg, b) == Takes(a.store, cfg, b)
  {
    var greeted := Greeted(a, cfg, s).0;
    FlushKeepsVerdicts(greeted, cfg, Peeked(greeted.queue, PEEK), s, 0, b);
    DeliveryKeepsVerdicts(AfterFlush(a, cfg, s), cfg, s, b);
    CycleByParts(a, cfg, s);
  }

  /** Whether the server takes a batch does not change over any run. */
  lemma {:induction false} RunKeepsVerdicts(a: Agent, cfg: Config, scripts: seq<Script>, b: Batch)
    requires cfg.machine < |a.store.machines|
    ensures Takes(Run(a, cfg, scripts).store, cfg, b) == Takes(a.store, cfg, b)
  {
    if scripts != [] {
      RunKeepsVerdicts(a, cfg, scripts[..|scripts| - 1], b);
      CycleKeepsVerdicts(Run(a, cfg, scripts[..|scripts| - 1]), cfg, scripts[|scripts| - 1], b);
    }
  }

  lemma FlushKeepsRefused(a: Agent, cfg: Config, s: Script, e: Entry<Batch>)
    requires cfg.machine < |a.store.machines| && Ordered(a.queue)
    requires e in a.queue.rows && !Takes(a.store, cfg, e.payload)
    ensures e in Flushed(a, cfg, Peeked(a.queue, PEEK), s, 0).0.queue.rows
  {
    var entries := Peeked(a.queue, PEEK);
    FlushOnQueue(a, cfg, entries, s, 0);
    var n := Acknowledgements(a.store, cfg, entries, s, 0);
    var i :| 0 <= i < |a.queue.rows| && a.queue.rows[i] == e;
    if i < |entries| {
      RefusedIsNotAcknowledged(a.store, cfg, entries, s, i);
    }
    assert a.queue.rows[n..][i - n] == e;
  }

  lemma RefusedIsNotAcknowledged(store: Ingest.Db, cfg: Config, entries: seq<Entry<Batch>>, s: Script, i: nat)
    requires cfg.machine < |store.machines| && i < |entries| && !Takes(store, cfg, entries[i].payload)
    ensures Acknowledgements(store, cfg, entries, s, 0) <= i
  {
    if i < Acknowledgements(store, cfg, entries, s, 0) {
      TurnIsAcknowledged(store, cfg, entries, s, 0, i);
      assert false;
    }
  }

  lemma DeliveryKeepsRows(a: Agent, cfg: Config, s: Script, e: Entry<Batch>)
    requires cfg.machine < |a.store.machines| && |a.queue.rows| + 1 <= cfg.maxItems && e in a.queue.rows
    ensures e in Delivered(a, cfg, s).0.queue.rows
  {
    if s.collection.Got? {
      PushKeepsRows(a.queue, Batch(a.machineId, a.nextUuid, s.collection.readings), cfg.maxItems, e);
    }
  }

  lemma PushKeepsRows(q: Queue<Batch>, batch: Batch, maxItems: int, e: Entry<Batch>)
    requires |q.rows| + 1 <= maxItems && e in q.rows
    ensures e in Pushed(q, batch, maxItems).rows
  {
    PushEvictsNothingExactlyWithRoom(q, batch, maxItems);
  }

  lemma CycleKeepsRefused(a: Agent, cfg: Config, s: Script, e: Entry<Batch>)
    requires cfg.machine < |a.store.machines| && Ordered(a.queue) && cfg.maxItems >= Max(1, |a.queue.rows|)
    requires e in a.queue.rows && !Takes(a.store, cfg, e.payload)
    ensures e in Cycled(a, cfg, s).queue.rows
  {
    var greeted := Greeted(a, cfg, s).0;
    FlushKeepsRefused(greeted, cfg, s, e);
    CycleByParts(a, cfg, s);
    if BeforeCollection(a, cfg, s).Some? {
      CollectionFindsRoom(a, cfg, s);
      DeliveryKeepsRows(AfterFlush(a, cfg, s), cfg, s, e);
    }
  }

  /** A batch that the server refuses stays in the spool, wherever in it, over every run. */
  lemma {:induction false} RefusedBatchStays(a: Agent, cfg: Config, scripts: seq<Script>, e: Entry<Batch>)
    requires cfg.machine < |a.store.machines| && Ordered(a.queue) && cfg.maxItems >= Max(1, |a.queue.rows|)
    requires e in a.queue.rows && !Takes(a.store, cfg, e.payload)
    ensures e in Run(a, cfg, scripts).queue.rows
  {
    if scripts != [] {
      var init := scripts[..|scripts| - 1];
      RefusedBatchStays(a, cfg, init, e);
      SpoolStaysSmall(a, cfg, init);
      RunKeepsVerdicts(a, cfg, init, e.payload);
      CycleKeepsRefused(Run(a, cfg, init), cfg, scripts[|scripts| - 1], e);
    }
  }

  function Repeated(n: nat): seq<Script> { seq(n, _ => ONE_REPLY) }

  lemma {:induction false} RowsLeaveOneByOne(a: Agent, cfg: Config, n: nat)
    requires cfg.machine < |a.store.machines| && Ordered(a.queue) && n <= |a.queue.rows|
    requires forall i :: 0 <= i < n ==> Takes(a.store, cfg, a.queue.rows[i].payload)
    ensures Run(a, cfg, Repeated(n)).queue == Queue(a.queue.rows[n..], a.queue.nextId)
  {
    if n > 0 {
      assert Repeated(n)[..n - 1] == Repeated(n - 1);
      RowsLeaveOneByOne(a, cfg, n - 1);
      RunKeepsVerdicts(a, cfg, Repeated(n - 1), a.queue.rows[n - 1].payload);
      OneReplySendsTheHead(Run(a, cfg, Repeated(n - 1)), cfg);
      assert a.queue.rows[n - 1..][1..] == a.queue.rows[n..];
    }
  }

  /** With room for its batches, a spool can drain at all exactly when the server takes every batch in it. */
  lemma SpoolCanDrainExactlyWhenAllAreTaken(a: Agent, cfg: Config)
    requires cfg.machine < |a.store.machines| && Ordered(a.queue) && cfg.maxItems >= Max(1, |a.queue.rows|)
    ensures (exists scripts :: Drains(a, cfg, scripts))
       <==> forall i :: 0 <= i < |a.queue.rows| ==> Takes(a.store, cfg, a.queue.rows[i].payload)
  {
    if forall i :: 0 <= i < |a.queue.rows| ==> Takes(a.store, cfg, a.queue.rows[i].payload) {
      RowsLeaveOneByOne(a, cfg, |a.queue.rows|);
      assert Drains(a, cfg, Repeated(|a.queue.rows|));
    } else {
      var i :| 0 <= i < |a.queue.rows| && !Takes(a.store, cfg, a.queue.rows[i].payload);
      forall scripts
        ensures !Drains(a, cfg, scripts)
      {
        RefusedBatchStays(a, cfg, scripts, a.queue.rows[i]);
      }
    }
  }
}
