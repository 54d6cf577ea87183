/**
 * The spool under the agent's loop, whatever the network, the server and the process do: a
 * batch is pushed only after the queue has been flushed, so the queue does not grow.
 */
module AgentSpool {
  import opened Common
  import opened SpoolQueue
  import opened Agent
  import Ingest

  /** The entries from k on are the oldest of the rows. */
  ghost predicate AreOldest(entries: seq<Entry<Batch>>, k: nat, rows: seq<Entry<Batch>>)
    requires k <= |entries|
  {
    |entries| - k <= |rows| && entries[k..] == rows[..|entries| - k]
  }

  lemma NextOldest(entries: seq<Entry<Batch>>, k: nat, rows: seq<Entry<Batch>>)
    requires k < |entries| && AreOldest(entries, k, rows)
    ensures rows != [] && entries[k] == rows[0] && AreOldest(entries, k + 1, rows[1..])
  {
    assert entries[k] == entries[k..][0];
    assert entries[k + 1..] == entries[k..][1..];
  }

  /** A turn of the flush removes the oldest row exactly when it ends normally, and besides only the store changes. */
  lemma TurnOnQueue(b: Agent, cfg: Config, reply: Reply, now: int)
    requires cfg.machine < |b.store.machines| && Ordered(b.queue) && b.queue.rows != []
    ensures var turn := FlushedOne(b, cfg, b.queue.rows[0], reply, now);
            var store := Sent(b.store, cfg, b.queue.rows[0].payload, reply.net, now).0;
            && Ordered(turn.0.queue)
            && turn.0 == if turn.1.None? then b.(store := store, queue := Queue(b.queue.rows[1..], b.queue.nextId))
                         else b.(store := store)
  {
    DeleteHead(b.queue);
  }

  /** The server takes the batch, the reply arrives and nothing is raised. */
  predicate Acknowledged(store: Ingest.Db, cfg: Config, entry: Entry<Batch>, reply: Reply)
    requires cfg.machine < |store.machines|
  {
    Takes(store, cfg, entry.payload) && reply.net.Reached? && reply.net.acknowledged && reply.fate.Goes?
  }

  /** How many turns from turn k on are acknowledged, one after the other. */
  function Acknowledgements(store: Ingest.Db, cfg: Config, entries: seq<Entry<Batch>>, s: Script, k: nat): (n: nat)
    requires cfg.machine < |store.machines| && k <= |entries|
    ensures n <= |entries| - k
    decreases |entries| - k
  {
    if k == |entries| || !Acknowledged(store, cfg, entries[k], ReplyAt(s.flush, k)) then 0
    else 1 + Acknowledgements(store, cfg, entries, s, k + 1)
  }

  lemma {:induction false} TurnIsAcknowledged(store: Ingest.Db, cfg: Config, entries: seq<Entry<Batch>>, s: Script,
                                              k: nat, i: nat)
    requires cfg.machine < |store.machines| && k <= i < |entries|
    requires i < k + Acknowledgements(store, cfg, entries, s, k)
    ensures Acknowledged(store, cfg, entries[i], ReplyAt(s.flush, i))
    decreases |entries| - k
  {
    if k < i {
      TurnIsAcknowledged(store, cfg, entries, s, k + 1, i);
    }
  }

  /** What a server does with one batch does not change whether it takes another. */
  lemma SendingKeepsVerdicts(store: Ingest.Db, cfg: Config, sent: Batch, net: Net, now: int, b: Batch)
    requires cfg.machine < |store.machines|
    ensures Takes(Sent(store, cfg, sent, net, now).0, cfg, b) == Takes(store, cfg, b)
  {
  }

  lemma {:induction false} VerdictsCount(before: Ingest.Db, after: Ingest.Db, cfg: Config, entries: seq<Entry<Batch>>,
                                         s: Script, k: nat)
    requires cfg.machine < |before.machines| && cfg.machine < |after.machines| && k <= |entries|
    requires forall b :: Takes(after, cfg, b) == Takes(before, cfg, b)
    ensures Acknowledgements(after, cfg, entries, s, k) == Acknowledgements(before, cfg, entries, s, k)
    decreases |entries| - k
  {
    if k < |entries| {
      VerdictsCount(before, after, cfg, entries, s, k + 1);
    }
  }

  lemma TurnKeepsCount(a: Agent, cfg: Config, entries: seq<Entry<Batch>>, s: Script, k: nat)
    requires cfg.machine < |a.store.machines| && k < |entries|
    ensures var turn := FlushedOne(a, cfg, entries[k], ReplyAt(s.flush, k), s.now);
            && |turn.0.store.machines| == |a.store.machines|
            && (turn.1.None? <==> Acknowledged(a.store, cfg, entries[k], ReplyAt(s.flush, k)))
            && Acknowledgements(turn.0.store, cfg, entries, s, k + 1)
               == Acknowledgements(a.store, cfg, entries, s, k + 1)
  {
    var reply := ReplyAt(s.flush, k);
    var turn := FlushedOne(a, cfg, entries[k], reply, s.now);
    forall b
      ensures Takes(turn.0.store, cfg, b) == Takes(a.store, cfg, b)
    {
      SendingKeepsVerdicts(a.store, cfg, entries[k].payload, reply.net, s.now, b);
    }
    VerdictsCount(a.store, turn.0.store, cfg, entries, s, k + 1);
  }

  /** The queue without its n oldest rows; the flush ended normally exactly when those were all its turns. */
  ghost predicate Shortened(before: Queue<Batch>, after: Queue<Batch>, end: Option<Result>, n: nat, turns: nat) {
    && n <= |before.rows| && after.rows == before.rows[n..] && after.nextId == before.nextId
    && Ordered(after) && (end.None? <==> n == turns)
  }

  lemma TurnThenShortened(before: Queue<Batch>, next: Queue<Batch>, after: Queue<Batch>, end: Option<Result>,
                          n: nat, turns: nat)
    requires before.rows != [] && next.rows == before.rows[1..] && next.nextId == before.nextId
    requires Shortened(next, after, end, n, turns)
    ensures Shortened(before, after, end, n + 1, turns + 1)
  {
    assert before.rows[1..][n..] == before.rows[n + 1..];
  }

  /** One turn of a flush: it removes the oldest row exactly when that is acknowledged, and the rest is still ahead. */
  lemma TurnInFlush(a: Agent, cfg: Config, entries: seq<Entry<Batch>>, s: Script, k: nat)
    requires cfg.machine < |a.store.machines| && Ordered(a.queue)
    requires k < |entries| && AreOldest(entries, k, a.queue.rows)
    ensures a.queue.rows != []
    ensures var turn, n := FlushedOne(a, cfg, entries[k], ReplyAt(s.flush, k), s.now),
                           Acknowledgements(a.store, cfg, entries, s, k);
            && |turn.0.store.machines| == |a.store.machines|
            && if turn.1.Some? then n == 0 && turn.0.queue == a.queue
               else n == 1 + Acknowledgements(turn.0.store, cfg, entries, s, k + 1)
                    && turn.0.queue == Queue(a.queue.rows[1..], a.queue.nextId) && Ordered(turn.0.queue)
                    && AreOldest(entries, k + 1, turn.0.queue.rows)
  {
    NextOldest(entries, k, a.queue.rows);
    TurnOnQueue(a, cfg, ReplyAt(s.flush, k), s.now);
    TurnKeepsCount(a, cfg, entries, s, k);
  }

  /** A flush removes exactly the oldest rows that are acknowledged one after the other, wherever it stops. */
  lemma {:induction false} FlushOnQueue(a: Agent, cfg: Config, entries: seq<Entry<Batch>>, s: Script, k: nat)
    requires cfg.machine < |a.store.machines| && Ordered(a.queue)
    requires k <= |entries| && AreOldest(entries, k, a.queue.rows)
    ensures var r := Flushed(a, cfg, entries, s, k);
            Shortened(a.queue, r.0.queue, r.1, Acknowledgements(a.store, cfg, entries, s, k), |entries| - k)
    decreases |entries| - k
  {
    if k < |entries| {
      TurnInFlush(a, cfg, entries, s, k);
      var turn := FlushedOne(a, cfg, entries[k], ReplyAt(s.flush, k), s.now);
      if turn.1.None? {
        FlushOnQueue(turn.0, cfg, entries, s, k + 1);
        var rest := Flushed(turn.0, cfg, entries, s, k + 1);
        var n := Acknowledgements(turn.0.store, cfg, entries, s, k + 1);
        TurnThenShortened(a.queue, turn.0.queue, rest.0.queue, rest.1, n, |entries| - (k + 1));
      }
    }
  }

  /** The state in which a cycle starts to collect, if it gets that far. */
  function BeforeCollection(a: Agent, cfg: Config, s: Script): Option<Agent>
    requires cfg.machine < |a.store.machines|
  {
    var (b, failed) := Greeted(a, cfg, s);
    if failed.Some? then None
    else
      var entries := Peeked(b.queue, PEEK);
      var (c, end) := Flushed(b, cfg, entries, s, 0);
      if end.Some? then None else Some(c)
  }

  /** The state after the flush of a cycle, or after its heartbeats if it does not get so far. */
  function AfterFlush(a: Agent, cfg: Config, s: Script): (r: Agent)
    requires cfg.machine < |a.store.machines|
    ensures |r.store.machines| == |a.store.machines|
  {
    var (b, failed) := Greeted(a, cfg, s);
    if failed.Some? then b else Flushed(b, cfg, Peeked(b.queue, PEEK), s, 0).0
  }

  /** A cycle flushes, perhaps collects, and then settles its backoff, which concerns neither queue nor server. */
  lemma CycleByParts(a: Agent, cfg: Config, s: Script)
    requires cfg.machine < |a.store.machines|
    ensures Greeted(a, cfg, s).0.queue == a.queue && Greeted(a, cfg, s).0.store == a.store
    ensures var f, c, r := AfterFlush(a, cfg, s), BeforeCollection(a, cfg, s), Cycled(a, cfg, s);
            if c.Some? then c.value == f && r.queue == Delivered(f, cfg, s).0.queue
                            && r.store == Delivered(f, cfg, s).0.store
            else r.queue == f.queue && r.store == f.store
  {
  }

  /** A cycle that gets to collect has room for one more batch within max(1, n). */
  lemma CollectionFindsRoom(a: Agent, cfg: Config, s: Script)
    requires cfg.machine < |a.store.machines| && Ordered(a.queue)
    ensures var c := BeforeCollection(a, cfg, s);
            c.Some? ==>
              && c.value.queue.rows == a.queue.rows[Min(25, |a.queue.rows|)..]
              && Ordered(c.value.queue) && |c.value.queue.rows| + 1 <= Max(1, |a.queue.rows|)
  {
    var b := Greeted(a, cfg, s).0;
    FlushOnQueue(b, cfg, Peeked(b.queue, PEEK), s, 0);
  }

  lemma PushGrowsByOne(q: Queue<Batch>, batch: Batch, maxItems: int)
    requires Ordered(q)
    ensures Ordered(Pushed(q, batch, maxItems)) && |Pushed(q, batch, maxItems).rows| <= |q.rows| + 1
  {
  }

  lemma DeliveryOnQueue(a: Agent, cfg: Config, s: Script)
    requires cfg.machine < |a.store.machines| && Ordered(a.queue)
    ensures var r := Delivered(a, cfg, s).0; Ordered(r.queue) && |r.queue.rows| <= |a.queue.rows| + 1
  {
    if s.collection.Got? {
      PushGrowsByOne(a.queue, Batch(a.machineId, a.nextUuid, s.collection.readings), cfg.maxItems);
    }
  }

  lemma AttemptOnQueue(a: Agent, cfg: Config, s: Script)
    requires cfg.machine < |a.store.machines| && Ordered(a.queue)
    ensures var r := Attempted(a, cfg, s).0; Ordered(r.queue) && |r.queue.rows| <= Max(1, |a.queue.rows|)
  {
    CollectionFindsRoom(a, cfg, s);
    var (b, failed) := Greeted(a, cfg, s);
    if failed.None? {
      FlushOnQueue(b, cfg, Peeked(b.queue, PEEK), s, 0);
      var flushed := Flushed(b, cfg, Peeked(b.queue, PEEK), s, 0);
      if flushed.1.None? {
        DeliveryOnQueue(flushed.0, cfg, s);
      }
    }
  }

  lemma CycleOnQueue(a: Agent, cfg: Config, s: Script)
    requires cfg.machine < |a.store.machines| && Ordered(a.queue)
    ensures var r := Cycled(a, cfg, s); Ordered(r.queue) && |r.queue.rows| <= Max(1, |a.queue.rows|)
  {
    AttemptOnQueue(a, cfg, s);
    var attempt := Attempted(a, cfg, s);
    assert Cycled(a, cfg, s).queue == attempt.0.queue;
  }

  /** From n rows on, the spool never holds more than max(1, n), whatever happens and whatever its bound is. */
  lemma {:induction false} SpoolStaysSmall(a: Agent, cfg: Config, scripts: seq<Script>)
    requires cfg.machine < |a.store.machines| && Ordered(a.queue)
    ensures var r := Run(a, cfg, scripts); Ordered(r.queue) && |r.queue.rows| <= Max(1, |a.queue.rows|)
  {
    if scripts != [] {
      SpoolStaysSmall(a, cfg, scripts[..|scripts| - 1]);
      CycleOnQueue(Run(a, cfg, scripts[..|scripts| - 1]), cfg, scripts[|scripts| - 1]);
    }
  }

  /** So with a bound of at least max(1, n) no push of any run evicts a batch. */
  lemma PushesEvictNothing(a: Agent, cfg: Config, scripts: seq<Script>, n: nat, batch: Batch)
    requires cfg.machine < |a.store.machines| && Ordered(a.queue) && cfg.maxItems >= Max(1, |a.queue.rows|)
    requires n < |scripts|
    ensures var c := BeforeCollection(Run(a, cfg, scripts[..n]), cfg, scripts[n]);
            c.Some? ==>
              var q := c.value.queue;
              Pushed(q, batch, cfg.maxItems).rows == q.rows + [Entry(q.nextId, batch)]
  {
    SpoolStaysSmall(a, cfg, scripts[..n]);
    CollectionFindsRoom(Run(a, cfg, scripts[..n]), cfg, scripts[n]);
    var c := BeforeCollection(Run(a, cfg, scripts[..n]), cfg, scripts[n]);
    if c.Some? {
      PushEvictsNothingExactlyWithRoom(c.value.queue, batch, cfg.maxItems);
    }
  }
}
