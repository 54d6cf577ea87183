/**
 * What holds over every run of the agent against the server: each collected batch is held
 * somewhere, no metric is stored twice, the spool does not grow, and the backoff doubles.
 */
module AgentSafety {
  import opened Common
  import opened SpoolQueue
  import opened Agent
  import opened AgentSpool
  import Ingest

  function Customer(a: Agent, cfg: Config): nat
    requires cfg.machine < |a.store.machines|
  {
    a.store.machines[cfg.machine].customer
  }

  /** The row that metric j of a batch is to become: the reading as it was collected, under its identifier. */
  function MetricRow(a: Agent, cfg: Config, b: Batch, j: nat): Ingest.Row
    requires cfg.machine < |a.store.machines| && j < |b.readings|
  {
    var reading := b.readings[j];
    Ingest.Row(Customer(a, cfg), cfg.machine, Some(Ingest.Uuid(b.base + j)), reading.name, reading.value,
               reading.timestamp)
  }

  /** Every metric of the batch is stored. */
  ghost predicate AllStored(a: Agent, cfg: Config, b: Batch)
    requires cfg.machine < |a.store.machines|
  {
    forall j :: 0 <= j < |b.readings| ==> b.readings[j].sound && MetricRow(a, cfg, b, j) in a.store.table
  }

  predicate Spooled(a: Agent, b: Batch) {
    exists k :: 0 <= k < |a.queue.rows| && a.queue.rows[k].payload == b
  }

  // ----- The invariant -----

  /** Batches draw disjoint, increasing ranges of identifiers below the counter. */
  ghost predicate Spread(collected: seq<Batch>, nextUuid: nat) {
    && (forall i, j :: 0 <= i < j < |collected| ==> collected[i].base + |collected[i].readings| <= collected[j].base)
    && forall i :: 0 <= i < |collected| ==> collected[i].base + |collected[i].readings| <= nextUuid
  }

  /** If the row's identifier lies in the range of the batch, the row is that metric of the batch. */
  ghost predicate Carries(a: Agent, cfg: Config, row: Ingest.Row, b: Batch)
    requires cfg.machine < |a.store.machines| && row.key.Some? && row.key.value.Uuid?
  {
    var j := row.key.value.n - b.base;
    0 <= j < |b.readings| ==> b.readings[j].sound && row == MetricRow(a, cfg, b, j)
  }

  /** A stored identifier has been drawn, and the row that carries it is that metric. */
  ghost predicate Genuine(a: Agent, cfg: Config, row: Ingest.Row)
    requires cfg.machine < |a.store.machines|
  {
    row.customer == Customer(a, cfg) && row.key.Some? && row.key.value.Uuid? ==>
      && row.key.value.n < a.nextUuid
      && forall i :: 0 <= i < |a.collected| ==> Carries(a, cfg, row, a.collected[i])
  }

  ghost predicate AllHeld(a: Agent, cfg: Config)
    requires cfg.machine < |a.store.machines|
  {
    forall i :: 0 <= i < |a.collected| ==> AllStored(a, cfg, a.collected[i]) || Spooled(a, a.collected[i])
  }

  ghost predicate Tidy(a: Agent, cfg: Config) {
    && cfg.machine < |a.store.machines|
    && Ordered(a.queue)
    && Ingest.UniqueKeys(a.store.table)
    && Spread(a.collected, a.nextUuid)
    && (forall row :: row in a.store.table ==> Genuine(a, cfg, row))
    && forall k :: 0 <= k < |a.queue.rows| ==> a.queue.rows[k].payload in a.collected
  }

  // ----- Sending -----

  lemma SentRows(a: Agent, cfg: Config, b: Batch, net: Net, now: int, row: Ingest.Row)
    requires Tidy(a, cfg)
    ensures var store := Sent(a.store, cfg, b, net, now).0;
            && Ingest.UniqueKeys(store.table) && store.machines[cfg.machine].customer == Customer(a, cfg)
            && (row in a.store.table ==> row in store.table)
            && (row in store.table ==>
                  row in a.store.table
                  || (Takes(a.store, cfg, b)
                      && exists j :: 0 <= j < |b.readings| && b.readings[j].sound && row == MetricRow(a, cfg, b, j)))
  {
    var store := Sent(a.store, cfg, b, net, now).0;
    if net.Reached? && Takes(a.store, cfg, b) {
      var items := Items(b);
      var rows := Ingest.RowsOf(Customer(a, cfg), cfg.machine, items);
      Ingest.InsertAllStoresOnce(a.store.table, rows);
      assert forall i :: 0 <= i < |a.store.table| ==> store.table[..|a.store.table|][i] == store.table[i];
      if row in rows {
        var j :| 0 <= j < |rows| && rows[j] == row;
        assert items[j] == ItemAt(b, j) && b.readings[j].sound;
      }
    }
  }

  /** Sending a collected batch keeps the store tidy; if the server took it, it is stored. */
  lemma SendKeepsTidy(a: Agent, cfg: Config, b: Batch, net: Net, now: int)
    requires Tidy(a, cfg) && b in a.collected
    ensures var (store, answer) := Sent(a.store, cfg, b, net, now);
            var r := a.(store := store);
            && Tidy(r, cfg) && Customer(r, cfg) == Customer(a, cfg)
            && (forall c :: AllStored(a, cfg, c) ==> AllStored(r, cfg, c))
            && (AllHeld(a, cfg) ==> AllHeld(r, cfg))
            && (net.Reached? && Takes(a.store, cfg, b) ==> AllStored(r, cfg, b))
            && (answer.Ok? ==> AllStored(r, cfg, b))
  {
    var store := Sent(a.store, cfg, b, net, now).0;
    var r := a.(store := store);
    forall row
      ensures Ingest.UniqueKeys(store.table) && Customer(r, cfg) == Customer(a, cfg)
      ensures row in a.store.table ==> row in store.table
      ensures row in store.table ==> Genuine(r, cfg, row)
    {
      SentRows(a, cfg, b, net, now, row);
      if row in store.table {
        if row in a.store.table {
          assert Genuine(a, cfg, row);
        } else {
          NewRowIsGenuine(a, cfg, b, row);
        }
      }
    }
    if net.Reached? && Takes(a.store, cfg, b) {
      TakenBatchIsStored(a, cfg, b, net, now);
    }
    assert forall c :: Spooled(a, c) ==> Spooled(r, c);
  }

  lemma NewRowIsGenuine(a: Agent, cfg: Config, b: Batch, row: Ingest.Row)
    requires Tidy(a, cfg) && b in a.collected
    requires exists j :: 0 <= j < |b.readings| && b.readings[j].sound && row == MetricRow(a, cfg, b, j)
    ensures Genuine(a, cfg, row)
  {
    var j :| 0 <= j < |b.readings| && b.readings[j].sound && row == MetricRow(a, cfg, b, j);
    var n :| 0 <= n < |a.collected| && a.collected[n] == b;
    forall i | 0 <= i < |a.collected|
      ensures Carries(a, cfg, row, a.collected[i])
    {
      assert i < n ==> a.collected[i].base + |a.collected[i].readings| <= a.collected[n].base;
      assert n < i ==> a.collected[n].base + |a.collected[n].readings| <= a.collected[i].base;
    }
  }

  lemma TakenBatchIsStored(a: Agent, cfg: Config, b: Batch, net: Net, now: int)
    requires Tidy(a, cfg) && b in a.collected && net.Reached? && Takes(a.store, cfg, b)
    requires var r := a.(store := Sent(a.store, cfg, b, net, now).0);
             Customer(r, cfg) == Customer(a, cfg) && forall row :: row in r.store.table ==> Genuine(r, cfg, row)
    ensures AllStored(a.(store := Sent(a.store, cfg, b, net, now).0), cfg, b)
  {
    var r := a.(store := Sent(a.store, cfg, b, net, now).0);
    var rows := Ingest.RowsOf(Customer(a, cfg), cfg.machine, Items(b));
    Ingest.InsertAllStoresOnce(a.store.table, rows);
    var n :| 0 <= n < |a.collected| && a.collected[n] == b;
    forall j | 0 <= j < |b.readings|
      ensures b.readings[j].sound && MetricRow(r, cfg, b, j) in r.store.table
    {
      assert Items(b)[j] == ItemAt(b, j) && rows[j].key == Some(Ingest.Uuid(b.base + j));
      var k :| 0 <= k < |r.store.table| && r.store.table[k].customer == Customer(a, cfg)
               && r.store.table[k].key == Some(Ingest.Uuid(b.base + j));
      assert Genuine(r, cfg, r.store.table[k]) && Carries(r, cfg, r.store.table[k], r.collected[n]);
    }
  }

  // ----- One cycle -----

  /** What a flush keeps. */
  ghost predicate FlushedWell(a: Agent, cfg: Config, r: Agent) {
    && Tidy(r, cfg) && AllHeld(r, cfg)
    && r.collected == a.collected && r.machineId == a.machineId && r.nextUuid == a.nextUuid
  }

  /** Deleting the oldest row is safe once its batch is stored. */
  lemma DeleteStoredHead(c: Agent, cfg: Config)
    requires Tidy(c, cfg) && AllHeld(c, cfg) && c.queue.rows != [] && AllStored(c, cfg, c.queue.rows[0].payload)
    ensures var r := c.(queue := Queue(c.queue.rows[1..], c.queue.nextId)); Tidy(r, cfg) && AllHeld(r, cfg)
  {
    var r := c.(queue := Queue(c.queue.rows[1..], c.queue.nextId));
    forall i | 0 <= i < |r.collected|
      ensures AllStored(r, cfg, r.collected[i]) || Spooled(r, r.collected[i])
    {
      if !AllStored(c, cfg, c.collected[i]) {
        var k :| 0 <= k < |c.queue.rows| && c.queue.rows[k].payload == c.collected[i];
        assert k > 0 && r.queue.rows[k - 1] == c.queue.rows[k];
      }
    }
    assert forall row :: Genuine(c, cfg, row) ==> Genuine(r, cfg, row);
  }

  lemma SpooledSend(b: Agent, cfg: Config, net: Net, now: int)
    requires Tidy(b, cfg) && AllHeld(b, cfg) && b.queue.rows != []
    ensures var (store, answer) := Sent(b.store, cfg, b.queue.rows[0].payload, net, now);
            var c := b.(store := store);
            && Tidy(c, cfg) && AllHeld(c, cfg)
            && (answer.Ok? ==> AllStored(c, cfg, c.queue.rows[0].payload))
  {
    assert b.queue.rows[0].payload in b.collected;
    SendKeepsTidy(b, cfg, b.queue.rows[0].payload, net, now);
  }

  lemma FlushTurnKeepsTidy(b: Agent, cfg: Config, reply: Reply, now: int)
    requires Tidy(b, cfg) && AllHeld(b, cfg) && b.queue.rows != []
    ensures var turn := FlushedOne(b, cfg, b.queue.rows[0], reply, now);
            && FlushedWell(b, cfg, turn.0)
            && turn.0.queue.rows == if turn.1.None? then b.queue.rows[1..] else b.queue.rows
  {
    SpooledSend(b, cfg, reply.net, now);
    TurnOnQueue(b, cfg, reply, now);
    if FlushedOne(b, cfg, b.queue.rows[0], reply, now).1.None? {
      DeleteStoredHead(b.(store := Sent(b.store, cfg, b.queue.rows[0].payload, reply.net, now).0), cfg);
    }
  }

  lemma NextTurnKeepsTidy(a: Agent, cfg: Config, entries: seq<Entry<Batch>>, k: nat, reply: Reply, now: int)
    requires Tidy(a, cfg) && AllHeld(a, cfg) && k < |entries| && AreOldest(entries, k, a.queue.rows)
    ensures var turn := FlushedOne(a, cfg, entries[k], reply, now);
            FlushedWell(a, cfg, turn.0) && (turn.1.None? ==> AreOldest(entries, k + 1, turn.0.queue.rows))
  {
    NextOldest(entries, k, a.queue.rows);
    FlushTurnKeepsTidy(a, cfg, reply, now);
  }

  /** A flush keeps every batch held: a row leaves only when its batch is stored. */
  lemma {:induction false} FlushKeepsTidy(a: Agent, cfg: Config, entries: seq<Entry<Batch>>, s: Script, k: nat)
    requires Tidy(a, cfg) && AllHeld(a, cfg) && k <= |entries| && AreOldest(entries, k, a.queue.rows)
    ensures FlushedWell(a, cfg, Flushed(a, cfg, entries, s, k).0)
    decreases |entries| - k
  {
    if k < |entries| {
      var reply := ReplyAt(s.flush, k);
      NextTurnKeepsTidy(a, cfg, entries, k, reply, s.now);
      var turn := FlushedOne(a, cfg, entries[k], reply, s.now);
      if turn.1.None? {
        FlushKeepsTidy(turn.0, cfg, entries, s, k + 1);
      }
    }
  }

  /** Nobody ever has the batch that is collected: the server did not take it, and it was not spooled. */
  predicate Drops(a: Agent, cfg: Config, s: Script)
    requires cfg.machine < |a.store.machines|
  {
    && s.collection.Got?
    && !(s.live.net.Reached? && Takes(a.store, cfg, Batch(a.machineId, a.nextUuid, s.collection.readings)))
    && (!s.live.fate.Goes? || !s.push.Keeps())
  }

  lemma CollectionKeepsTidy(a: Agent, cfg: Config, batch: Batch)
    requires Tidy(a, cfg) && batch.base == a.nextUuid
    ensures var b := a.(nextUuid := a.nextUuid + |batch.readings|, collected := a.collected + [batch]);
            && Tidy(b, cfg)
            && forall c :: AllStored(a, cfg, c) ==> AllStored(b, cfg, c)
  {
    var b := a.(nextUuid := a.nextUuid + |batch.readings|, collected := a.collected + [batch]);
    forall row | row in b.store.table
      ensures Genuine(b, cfg, row)
    {
      assert Genuine(a, cfg, row);
    }
  }

  /** Every collected batch but the given one is held. */
  ghost predicate OthersHeld(a: Agent, cfg: Config, b: Batch)
    requires cfg.machine < |a.store.machines|
  {
    forall i :: 0 <= i < |a.collected| && a.collected[i] != b ==>
      AllStored(a, cfg, a.collected[i]) || Spooled(a, a.collected[i])
  }

  lemma PushHolds(c: Agent, cfg: Config, b: Batch)
    requires Tidy(c, cfg) && OthersHeld(c, cfg, b) && b in c.collected && |c.queue.rows| + 1 <= cfg.maxItems
    ensures var r := c.(queue := Pushed(c.queue, b, cfg.maxItems));
            Tidy(r, cfg) && AllHeld(r, cfg) && |r.queue.rows| == |c.queue.rows| + 1
  {
    var r := c.(queue := Pushed(c.queue, b, cfg.maxItems));
    PushEvictsNothingExactlyWithRoom(c.queue, b, cfg.maxItems);
    assert r.queue.rows[|c.queue.rows|].payload == b;
    forall i | 0 <= i < |r.collected|
      ensures AllStored(r, cfg, r.collected[i]) || Spooled(r, r.collected[i])
    {
      if Spooled(c, c.collected[i]) {
        var k :| 0 <= k < |c.queue.rows| && c.queue.rows[k].payload == c.collected[i];
        assert r.queue.rows[k] == c.queue.rows[k];
      }
    }
    assert forall row :: Genuine(c, cfg, row) ==> Genuine(r, cfg, row);
  }

  lemma OldBatchesStayHeld(a: Agent, b: Agent, c: Agent, cfg: Config, batch: Batch)
    requires cfg.machine < |a.store.machines| && cfg.machine < |b.store.machines| && cfg.machine < |c.store.machines|
    requires AllHeld(a, cfg) && c.collected == a.collected + [batch] && c.queue == a.queue
    requires forall d :: AllStored(a, cfg, d) ==> AllStored(b, cfg, d)
    requires forall d :: AllStored(b, cfg, d) ==> AllStored(c, cfg, d)
    ensures OthersHeld(c, cfg, batch)
  {
    forall i | 0 <= i < |c.collected| && c.collected[i] != batch
      ensures AllStored(c, cfg, c.collected[i]) || Spooled(c, c.collected[i])
    {
      var d := a.collected[i];
      if !AllStored(a, cfg, d) {
        var k :| 0 <= k < |a.queue.rows| && a.queue.rows[k].payload == d;
        assert c.queue.rows[k].payload == d;
      }
    }
  }

  lemma LiveSend(a: Agent, cfg: Config, batch: Batch, net: Net, now: int)
    requires Tidy(a, cfg) && AllHeld(a, cfg) && batch.base == a.nextUuid
    ensures var c := LiveSent(a, cfg, batch, net, now).0;
            && Tidy(c, cfg) && OthersHeld(c, cfg, batch) && batch in c.collected
            && (net.Reached? && Takes(a.store, cfg, batch) ==> AllHeld(c, cfg))
  {
    var b := a.(nextUuid := a.nextUuid + |batch.readings|, collected := a.collected + [batch]);
    CollectionKeepsTidy(a, cfg, batch);
    assert b.collected[|a.collected|] == batch;
    SendKeepsTidy(b, cfg, batch, net, now);
    var c := b.(store := Sent(a.store, cfg, batch, net, now).0);
    assert c == LiveSent(a, cfg, batch, net, now).0;
    OldBatchesStayHeld(a, b, c, cfg, batch);
    assert AllStored(c, cfg, batch) ==> AllHeld(c, cfg);
  }

  /** With room for a push, a delivery keeps every batch held unless it drops the one it collects. */
  lemma DeliveryKeepsTidy(a: Agent, cfg: Config, s: Script)
    requires Tidy(a, cfg) && AllHeld(a, cfg) && |a.queue.rows| + 1 <= cfg.maxItems && !Drops(a, cfg, s)
    ensures var r := Delivered(a, cfg, s).0; Tidy(r, cfg) && AllHeld(r, cfg) && a.collected <= r.collected
  {
    if s.collection.Got? {
      var batch := Batch(a.machineId, a.nextUuid, s.collection.readings);
      LiveSend(a, cfg, batch, s.live.net, s.now);
      var (c, answer) := LiveSent(a, cfg, batch, s.live.net, s.now);
      if s.live.fate.Goes? && answer.Refused? && s.push.Keeps() {
        PushHolds(c, cfg, batch);
      }
    }
  }

  lemma GreetingKeepsTidy(a: Agent, cfg: Config, s: Script)
    requires Tidy(a, cfg)
    ensures var b := Greeted(a, cfg, s).0;
            && Tidy(b, cfg) && b.queue == a.queue && b.store == a.store && b.collected == a.collected
            && (AllHeld(a, cfg) ==> AllHeld(b, cfg))
  {
    var b := Greeted(a, cfg, s).0;
    assert b == a.(machineId := b.machineId, lastHeartbeat := b.lastHeartbeat);
    assert forall row :: Genuine(a, cfg, row) ==> Genuine(b, cfg, row);
    assert forall c :: AllStored(a, cfg, c) ==> AllStored(b, cfg, c);
    assert forall c :: Spooled(a, c) ==> Spooled(b, c);
  }

  lemma SettlingKeepsTidy(a: Agent, cfg: Config, result: Result)
    requires Tidy(a, cfg)
    ensures var b := Settled(a, result);
            && Tidy(b, cfg) && b.queue == a.queue && b.collected == a.collected
            && (AllHeld(a, cfg) ==> AllHeld(b, cfg))
  {
    var b := Settled(a, result);
    assert b == a.(machineId := b.machineId, lastHeartbeat := b.lastHeartbeat, backoff := b.backoff);
    assert forall row :: Genuine(a, cfg, row) ==> Genuine(b, cfg, row);
    assert forall c :: AllStored(a, cfg, c) ==> AllStored(b, cfg, c);
    assert forall c :: Spooled(a, c) ==> Spooled(b, c);
  }

  /** The cycle gets to collect and drops its batch. */
  predicate DropsInCycle(a: Agent, cfg: Config, s: Script)
    requires cfg.machine < |a.store.machines|
  {
    var c := BeforeCollection(a, cfg, s);
    c.Some? && Drops(c.value, cfg, s)
  }

  lemma CycleKeepsHeld(a: Agent, cfg: Config, s: Script)
    requires Tidy(a, cfg) && AllHeld(a, cfg) && cfg.maxItems >= Max(1, |a.queue.rows|) && !DropsInCycle(a, cfg, s)
    ensures var r := Cycled(a, cfg, s); Tidy(r, cfg) && AllHeld(r, cfg) && a.collected <= r.collected
  {
    var (b, failed) := Greeted(a, cfg, s);
    GreetingKeepsTidy(a, cfg, s);
    CollectionFindsRoom(a, cfg, s);
    var (last, result) := Attempted(a, cfg, s);
    if failed.None? {
      var entries := Peeked(b.queue, PEEK);
      FlushKeepsTidy(b, cfg, entries, s, 0);
      var (c, end) := Flushed(b, cfg, entries, s, 0);
      if end.None? {
        DeliveryKeepsTidy(c, cfg, s);
      }
    }
    SettlingKeepsTidy(last, cfg, result);
  }

  // ----- Whole runs -----

  /** No cycle drops the batch it collects. */
  ghost predicate NothingDropped(a: Agent, cfg: Config, scripts: seq<Script>)
    requires cfg.machine < |a.store.machines|
  {
    forall n :: 0 <= n < |scripts| ==> !DropsInCycle(Run(a, cfg, scripts[..n]), cfg, scripts[n])
  }

  lemma NothingDroppedBefore(a: Agent, cfg: Config, scripts: seq<Script>, init: seq<Script>)
    requires cfg.machine < |a.store.machines| && NothingDropped(a, cfg, scripts)
    requires scripts != [] && init == scripts[..|scripts| - 1]
    ensures NothingDropped(a, cfg, init) && !DropsInCycle(Run(a, cfg, init), cfg, scripts[|scripts| - 1])
  {
    assert forall n :: 0 <= n < |init| ==> init[..n] == scripts[..n] && init[n] == scripts[n];
  }

  /** Over every run that drops nothing, each collected batch is stored or spooled, and no key is stored twice. */
  lemma {:induction false} EveryBatchIsHeld(a: Agent, cfg: Config, scripts: seq<Script>)
    requires Tidy(a, cfg) && AllHeld(a, cfg) && NothingDropped(a, cfg, scripts)
    requires cfg.maxItems >= Max(1, |a.queue.rows|)
    ensures var r := Run(a, cfg, scripts); Tidy(r, cfg) && AllHeld(r, cfg) && a.collected <= r.collected
  {
    if scripts != [] {
      var init, last := scripts[..|scripts| - 1], scripts[|scripts| - 1];
      NothingDroppedBefore(a, cfg, scripts, init);
      EveryBatchIsHeld(a, cfg, init);
      SpoolStaysSmall(a, cfg, init);
      CycleKeepsHeld(Run(a, cfg, init), cfg, last);
    }
  }

  /** A server with its machines, whose stored identifiers the agent has not drawn. */
  ghost predicate FreshStart(a: Agent, cfg: Config) {
    && cfg.machine < |a.store.machines| && a.queue.rows == [] && a.collected == []
    && Ingest.UniqueKeys(a.store.table)
    && forall row :: row in a.store.table && row.key.Some? && row.key.value.Uuid? ==> row.key.value.n < a.nextUuid
  }

  /** The row shows what was read. */
  predicate ShowsReading(row: Ingest.Row, machine: nat, reading: Reading) {
    && row.machine == machine
    && row.name == reading.name && row.value == reading.value && row.timestamp == reading.timestamp
  }

  /** Exactly one row of the customer has the identifier, and it shows the reading. */
  ghost predicate StoredOnce(table: seq<Ingest.Row>, customer: nat, machine: nat, id: nat, reading: Reading) {
    exists k :: 0 <= k < |table| && Ingest.OnlyRow(table, k, customer, Ingest.Uuid(id))
      && ShowsReading(table[k], machine, reading)
  }

  lemma StoredMetricShows(a: Agent, cfg: Config, b: Batch, j: nat)
    requires Tidy(a, cfg) && AllStored(a, cfg, b) && j < |b.readings|
    ensures StoredOnce(a.store.table, Customer(a, cfg), cfg.machine, b.base + j, b.readings[j])
  {
    assert MetricRow(a, cfg, b, j) in a.store.table;
    var k :| 0 <= k < |a.store.table| && a.store.table[k] == MetricRow(a, cfg, b, j);
    assert Ingest.OnlyRow(a.store.table, k, Customer(a, cfg), Ingest.Uuid(b.base + j));
  }

  /** Every metric ever collected is stored once, under its own identifier, as it was read. */
  ghost predicate EachStoredOnce(a: Agent, cfg: Config)
    requires cfg.machine < |a.store.machines|
  {
    forall i, j :: 0 <= i < |a.collected| && 0 <= j < |a.collected[i].readings| ==>
      var b := a.collected[i];
      StoredOnce(a.store.table, Customer(a, cfg), cfg.machine, b.base + j, b.readings[j])
  }

  lemma EmptySpoolMeansStored(a: Agent, cfg: Config)
    requires Tidy(a, cfg) && AllHeld(a, cfg) && a.queue.rows == []
    ensures EachStoredOnce(a, cfg)
  {
    forall i, j | 0 <= i < |a.collected| && 0 <= j < |a.collected[i].readings|
      ensures var b := a.collected[i];
              StoredOnce(a.store.table, Customer(a, cfg), cfg.machine, b.base + j, b.readings[j])
    {
      assert !Spooled(a, a.collected[i]);
      StoredMetricShows(a, cfg, a.collected[i], j);
    }
  }

  lemma FreshStartIsTidy(a: Agent, cfg: Config)
    requires FreshStart(a, cfg)
    ensures Tidy(a, cfg) && AllHeld(a, cfg)
  {
    assert forall row :: row in a.store.table ==> Genuine(a, cfg, row);
  }

  lemma FreshRunHoldsAll(a: Agent, cfg: Config, scripts: seq<Script>)
    requires FreshStart(a, cfg) && cfg.maxItems >= 1 && NothingDropped(a, cfg, scripts)
    ensures var r := Run(a, cfg, scripts); Tidy(r, cfg) && AllHeld(r, cfg)
  {
    FreshStartIsTidy(a, cfg);
    EveryBatchIsHeld(a, cfg, scripts);
  }

  /**
   * Whenever the spool is empty, every metric ever collected is stored exactly once, under its own
   * identifier, as it was read.
   */
  lemma DrainedMeansStoredExactlyOnce(a: Agent, cfg: Config, scripts: seq<Script>)
    requires FreshStart(a, cfg) && cfg.maxItems >= 1 && NothingDropped(a, cfg, scripts)
    requires Run(a, cfg, scripts).queue.rows == []
    ensures EachStoredOnce(Run(a, cfg, scripts), cfg)
  {
    FreshRunHoldsAll(a, cfg, scripts);
    EmptySpoolMeansStored(Run(a, cfg, scripts), cfg);
  }

  // ----- Losses are exactly the excluded ones -----

  lemma DroppedBatchIsMissing(a: Agent, cfg: Config, s: Script)
    requires Tidy(a, cfg) && s.collection.Got? && s.collection.readings != [] && Drops(a, cfg, s)
    ensures !AllHeld(Delivered(a, cfg, s).0, cfg)
  {
    var batch := Batch(a.machineId, a.nextUuid, s.collection.readings);
    var r := Delivered(a, cfg, s).0;
    assert r.collected[|a.collected|] == batch && r.store == a.store && r.queue == a.queue;
    assert batch !in a.collected by {
      assert forall i :: 0 <= i < |a.collected| ==> a.collected[i].base + |a.collected[i].readings| <= a.nextUuid;
    }
    assert !Spooled(r, batch);
    assert batch.readings[0].sound ==> MetricRow(r, cfg, batch, 0) !in r.store.table by {
      assert forall row :: row in a.store.table ==> Genuine(a, cfg, row);
    }
    MissingMetric(r, cfg, batch, 0);
  }

  /** With room for a push, a batch with metrics is lost exactly when nobody took it: the exclusion above is exact. */
  lemma BatchIsLostExactlyWhenDropped(a: Agent, cfg: Config, s: Script)
    requires Tidy(a, cfg) && AllHeld(a, cfg) && |a.queue.rows| + 1 <= cfg.maxItems
    requires s.collection.Got? && s.collection.readings != []
    ensures AllHeld(Delivered(a, cfg, s).0, cfg) <==> !Drops(a, cfg, s)
  {
    if Drops(a, cfg, s) {
      DroppedBatchIsMissing(a, cfg, s);
    } else {
      DeliveryKeepsTidy(a, cfg, s);
    }
  }

  lemma MissingMetric(a: Agent, cfg: Config, b: Batch, j: nat)
    requires cfg.machine < |a.store.machines| && j < |b.readings|
    requires b.readings[j].sound ==> MetricRow(a, cfg, b, j) !in a.store.table
    ensures !AllStored(a, cfg, b)
  {
  }

  // ----- Backoff -----

  predicate Backs(result: Result) {
    result.Unexpected? || (result.Failed? && result.retryable)
  }

  predicate Restarts(result: Result) { result.Succeeded? || result.Died? }

  /** Retryable and unexpected failures since the last success or restart. */
  function Strikes(a: Agent, cfg: Config, scripts: seq<Script>): nat
    requires cfg.machine < |a.store.machines|
  {
    if scripts == [] then 0
    else
      var init := scripts[..|scripts| - 1];
      var result := Attempted(Run(a, cfg, init), cfg, scripts[|scripts| - 1]).1;
      if Restarts(result) then 0 else Strikes(a, cfg, init) + if Backs(result) then 1 else 0
  }

  lemma {:induction false} FlushLeavesBackoff(a: Agent, cfg: Config, s: Script, entries: seq<Entry<Batch>>, k: nat)
    requires cfg.machine < |a.store.machines| && k <= |entries|
    ensures Flushed(a, cfg, entries, s, k).0.backoff == a.backoff
    decreases |entries| - k
  {
    if k < |entries| {
      var turn := FlushedOne(a, cfg, entries[k], ReplyAt(s.flush, k), s.now);
      if turn.1.None? {
        FlushLeavesBackoff(turn.0, cfg, s, entries, k + 1);
      }
    }
  }

  lemma DeliveryLeavesBackoff(a: Agent, cfg: Config, s: Script)
    requires cfg.machine < |a.store.machines|
    ensures Delivered(a, cfg, s).0.backoff == a.backoff
  {
  }

  lemma AttemptLeavesBackoff(a: Agent, cfg: Config, s: Script)
    requires cfg.machine < |a.store.machines|
    ensures Attempted(a, cfg, s).0.backoff == a.backoff
  {
    var (b, failed) := Greeted(a, cfg, s);
    if failed.None? {
      var entries := Peeked(b.queue, PEEK);
      FlushLeavesBackoff(b, cfg, s, entries, 0);
      DeliveryLeavesBackoff(Flushed(b, cfg, entries, s, 0).0, cfg, s);
    }
  }

  lemma SettlingDoubles(a: Agent, result: Result, k: nat)
    requires a.backoff == Min(300, Pow2(k))
    ensures Settled(a, result).backoff
         == Min(300, Pow2(if Restarts(result) then 0 else k + if Backs(result) then 1 else 0))
  {
    assert Pow2(k + 1) == 2 * Pow2(k) && Pow2(0) == 1;
  }

  /** After k such failures the backoff is min(300, 2^k). */
  lemma {:induction false} BackoffDoubles(a: Agent, cfg: Config, scripts: seq<Script>)
    requires cfg.machine < |a.store.machines| && a.backoff == 1
    ensures Run(a, cfg, scripts).backoff == Min(300, Pow2(Strikes(a, cfg, scripts)))
  {
    if scripts != [] {
      var init, last := scripts[..|scripts| - 1], scripts[|scripts| - 1];
      BackoffDoubles(a, cfg, init);
      var before := Run(a, cfg, init);
      AttemptLeavesBackoff(before, cfg, last);
      var attempt := Attempted(before, cfg, last);
      SettlingDoubles(attempt.0, attempt.1, Strikes(a, cfg, init));
    }
  }

  /** After k such failures the next retryable or unexpected one is followed by a wait of at least min(300, 2^k). */
  lemma FailuresAreSpacedOut(a: Agent, cfg: Config, scripts: seq<Script>, s: Script, elapsed: real, jitter: real)
    requires cfg.machine < |a.store.machines| && a.backoff == 1 && jitter >= 0.0
    ensures var before := Run(a, cfg, scripts);
            var result := Attempted(before, cfg, s).1;
            && before.backoff >= 1
            && var wait := Wait(result, before.backoff, cfg, elapsed, jitter);
            && (Backs(result) ==> wait >= Min(300, Pow2(Strikes(a, cfg, scripts))) as real)
            && (result.Failed? && !result.retryable ==> wait == cfg.interval as real)
            && (result.Succeeded? ==> elapsed + wait >= cfg.interval as real)
            && (result.Succeeded? && elapsed <= cfg.interval as real ==> elapsed + wait == cfg.interval as real)
  {
    BackoffDoubles(a, cfg, scripts);
  }

  /** A cycle that gets past its heartbeats knows its machine if it was told, and the last beat is recent. */
  lemma GreetingKeepsTheBeat(a: Agent, cfg: Config, s: Script)
    ensures var (b, failed) := Greeted(a, cfg, s);
            && (failed.None? ==> s.started - b.lastHeartbeat < cfg.heartbeat || b.lastHeartbeat == s.started)
            && b.lastHeartbeat in {a.lastHeartbeat, s.started}
            && (s.started - a.lastHeartbeat < cfg.heartbeat ==> b.lastHeartbeat == a.lastHeartbeat)
            && (a.machineId.Some? ==> b.machineId == a.machineId)
            && (failed.None? && a.machineId.None? ==> s.firstBeat == Alive(b.machineId))
            && (failed.Some? ==> failed.value.Unexpected? || failed.value.Failed?)
            && (a.machineId.None? && s.firstBeat.Missed? ==> failed == Some(Failed(s.firstBeat.retryable)))
            && (a.machineId.None? && s.firstBeat.Broken? ==> failed == Some(Unexpected))
  {
  }

  // ----- How a cycle ends -----

  /** What a request and its fate are for the loop; None when all is well. */
  function Cause(store: Ingest.Db, cfg: Config, b: Batch, reply: Reply): Option<Result>
    requires cfg.machine < |store.machines|
  {
    match reply.fate
    case Dies => Some(Died)
    case Raises => Some(Unexpected)
    case Goes =>
      match reply.net
      case Lost(retryable) => Some(Failed(retryable))
      case Reached(acknowledged, retryable) =>
        if !Takes(store, cfg, b) then Some(Failed(false))
        else if acknowledged then None else Some(Failed(retryable))
  }

  lemma TurnEndsAsItsCause(a: Agent, cfg: Config, entry: Entry<Batch>, reply: Reply, now: int)
    requires cfg.machine < |a.store.machines|
    ensures FlushedOne(a, cfg, entry, reply, now).1 == Cause(a.store, cfg, entry.payload, reply)
    ensures Acknowledged(a.store, cfg, entry, reply) <==> Cause(a.store, cfg, entry.payload, reply).None?
  {
  }

  lemma CauseStays(a: Agent, cfg: Config, entry: Entry<Batch>, reply: Reply, now: int, b: Batch, later: Reply)
    requires cfg.machine < |a.store.machines|
    ensures var store := FlushedOne(a, cfg, entry, reply, now).0.store;
            |store.machines| == |a.store.machines| && Cause(store, cfg, b, later) == Cause(a.store, cfg, b, later)
  {
    SendingKeepsVerdicts(a.store, cfg, entry.payload, reply.net, now, b);
  }

  /** How turns n and later would end the flush. */
  function CauseAt(store: Ingest.Db, cfg: Config, entries: seq<Entry<Batch>>, s: Script, n: nat): Option<Result>
    requires cfg.machine < |store.machines|
  {
    if n < |entries| then Cause(store, cfg, entries[n].payload, ReplyAt(s.flush, n)) else None
  }

  lemma FlushStep(a: Agent, cfg: Config, entries: seq<Entry<Batch>>, s: Script, k: nat, n: nat)
    requires cfg.machine < |a.store.machines| && k < |entries|
    requires n == k + Acknowledgements(a.store, cfg, entries, s, k)
    ensures var turn := FlushedOne(a, cfg, entries[k], ReplyAt(s.flush, k), s.now);
            && |turn.0.store.machines| == |a.store.machines|
            && CauseAt(turn.0.store, cfg, entries, s, n) == CauseAt(a.store, cfg, entries, s, n)
            && (n == k <==> turn.1.Some?) && (n == k ==> turn.1 == CauseAt(a.store, cfg, entries, s, n))
            && (n > k ==> n == k + 1 + Acknowledgements(turn.0.store, cfg, entries, s, k + 1))
  {
    var reply := ReplyAt(s.flush, k);
    TurnEndsAsItsCause(a, cfg, entries[k], reply, s.now);
    TurnKeepsCount(a, cfg, entries, s, k);
    if n < |entries| {
      CauseStays(a, cfg, entries[k], reply, s.now, entries[n].payload, ReplyAt(s.flush, n));
    }
  }

  /** A flush ends as its first turn that was not acknowledged; a batch refused for good is no reason to retry. */
  lemma {:induction false} FlushEndsAtTheFirstFailure(a: Agent, cfg: Config, entries: seq<Entry<Batch>>, s: Script,
                                                      k: nat, n: nat)
    requires cfg.machine < |a.store.machines| && k <= |entries|
    requires n == k + Acknowledgements(a.store, cfg, entries, s, k)
    ensures Flushed(a, cfg, entries, s, k).1 == CauseAt(a.store, cfg, entries, s, n)
    decreases |entries| - k
  {
    if k < |entries| {
      FlushStep(a, cfg, entries, s, k, n);
      if n > k {
        var turn := FlushedOne(a, cfg, entries[k], ReplyAt(s.flush, k), s.now);
        FlushEndsAtTheFirstFailure(turn.0, cfg, entries, s, k + 1, n);
      }
    }
  }

  /** A collection ends as its live request; a failed one is spooled, and what happens to the push comes on top. */
  lemma CollectionEndsAsItsRequest(a: Agent, cfg: Config, s: Script)
    requires cfg.machine < |a.store.machines|
    ensures var (r, result) := Delivered(a, cfg, s);
            && (s.collection.CollectorRaises? ==> r == a && result.Unexpected?)
            && (s.collection.CollectorDies? ==> r == a && result.Died?)
            && (s.collection.Got? ==>
                  var b := Batch(a.machineId, a.nextUuid, s.collection.readings);
                  var cause := Cause(a.store, cfg, b, s.live);
                  && r.collected == a.collected + [b]
                  && (cause.None? ==> result.Succeeded? && r.queue == a.queue)
                  && (cause.Some? && !cause.value.Failed? ==> result == cause.value && r.queue == a.queue)
                  && (cause.Some? && cause.value.Failed? ==>
                        && (s.push.Commits? ==> result == cause.value)
                        && (s.push.PushRaises? ==> result.Unexpected?)
                        && (s.push.DiesBefore? || s.push.DiesAfter? ==> result.Died?)))
  {
  }

  /** A process that died starts over: it greets again, beats at once and has forgotten its backoff. */
  lemma RestartForgets(a: Agent, cfg: Config, s: Script)
    requires cfg.machine < |a.store.machines| && Attempted(a, cfg, s).1.Died?
    ensures var r := Cycled(a, cfg, s);
            r.machineId.None? && r.lastHeartbeat == 0 && r.backoff == 1
  {
  }

  lemma {:induction false} FlushIsNoSuccess(a: Agent, cfg: Config, entries: seq<Entry<Batch>>, s: Script, k: nat)
    requires cfg.machine < |a.store.machines| && k <= |entries|
    ensures Flushed(a, cfg, entries, s, k).1 != Some(Succeeded)
    decreases |entries| - k
  {
    if k < |entries| {
      var turn := FlushedOne(a, cfg, entries[k], ReplyAt(s.flush, k), s.now);
      if turn.1.None? {
        FlushIsNoSuccess(turn.0, cfg, entries, s, k + 1);
      }
    }
  }

  lemma EarlyEndIsNoSuccess(a: Agent, cfg: Config, s: Script)
    requires cfg.machine < |a.store.machines|
    ensures var c := BeforeCollection(a, cfg, s);
            if c.None? then !Attempted(a, cfg, s).1.Succeeded?
            else |c.value.store.machines| == |a.store.machines|
                 && Attempted(a, cfg, s) == Delivered(c.value, cfg, s)
  {
    var (b, failed) := Greeted(a, cfg, s);
    if failed.None? {
      FlushIsNoSuccess(b, cfg, Peeked(b.queue, PEEK), s, 0);
    }
  }

  /** A cycle succeeds exactly when it gets to collect and its live batch is taken and acknowledged. */
  lemma CycleSucceedsExactlyWhenAcknowledged(a: Agent, cfg: Config, s: Script)
    requires cfg.machine < |a.store.machines|
    ensures Attempted(a, cfg, s).1.Succeeded? <==>
              var c := BeforeCollection(a, cfg, s);
              && c.Some? && s.collection.Got? && cfg.machine < |c.value.store.machines|
              && Acknowledged(c.value.store, cfg,
                              Entry(0, Batch(c.value.machineId, c.value.nextUuid, s.collection.readings)), s.live)
  {
    EarlyEndIsNoSuccess(a, cfg, s);
  }

  /**
   * So with a jitter within a quarter of the backoff, at most five seconds, no wait exceeds 305 seconds or
   * the interval.
   */
  lemma WaitIsBounded(result: Result, backoff: nat, cfg: Config, elapsed: real, jitter: real)
    requires elapsed >= 0.0 && 0.0 <= jitter <= 5.0 && 4.0 * jitter <= backoff as real
    ensures 0.0 <= Wait(result, backoff, cfg, elapsed, jitter)
    ensures Wait(result, backoff, cfg, elapsed, jitter) <= Max(305, cfg.interval) as real
  {
  }
}
