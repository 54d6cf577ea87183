/**
 * The agent's cycle: flush the spool, collect, send, and spool what could not be sent, over
 * a network that loses requests and replies and in a process that may die.
 *
 * A script says what one cycle meets. Identifiers of metrics are drawn from a counter, which
 * stands for the fresh UUID each metric gets.
 */
module Agent {
  import opened Common
  import opened SpoolQueue
  import Ingest

  /** A collected value; the server cannot normalise an unsound one. */
  datatype Reading = Reading(name: string, value: Option<real>, timestamp: int, sound: bool)

  /** The payload of one collection; metric j carries the identifier base + j. */
  datatype Batch = Batch(machine: Option<nat>, base: nat, readings: seq<Reading>)

  function ItemAt(b: Batch, j: nat): Ingest.Item
    requires j < |b.readings|
  {
    var r := b.readings[j];
    if r.sound then Ingest.Valid(Some(Ingest.Uuid(b.base + j)), r.name, r.value, r.timestamp) else Ingest.Invalid
  }

  function Items(b: Batch): (r: seq<Ingest.Item>)
    ensures |r| == |b.readings| && forall j :: 0 <= j < |r| ==> r[j] == ItemAt(b, j)
  {
    seq(|b.readings|, j requires 0 <= j < |b.readings| => ItemAt(b, j))
  }

  /** One request: it is lost, or the server handles it and the reply arrives or not. */
  datatype Net = Lost(retryable: bool) | Reached(acknowledged: bool, retryable: bool)

  datatype Answer = Ok | Refused(retryable: bool)

  /** A heartbeat's reply. */
  datatype Beat = Alive(machineId: Option<nat>) | Missed(retryable: bool) | Broken

  /** What follows a request: the loop goes on, something but the client's error is raised, or the process dies. */
  datatype Fate = Goes | Raises | Dies

  datatype Reply = Reply(net: Net, fate: Fate)

  /** A push commits, raises without committing, or meets the death of the process before or after its commit. */
  datatype PushFate = Commits | PushRaises | DiesBefore | DiesAfter {
    predicate Keeps() { Commits? || DiesAfter? }
  }

  datatype Collection = Got(readings: seq<Reading>) | CollectorRaises | CollectorDies

  datatype Script = Script(
    started: int,
    now: int,
    firstBeat: Beat,
    secondBeat: Beat,
    flush: seq<Reply>,
    collection: Collection,
    live: Reply,
    push: PushFate)

  datatype Result = Succeeded | Failed(retryable: bool) | Unexpected | Died

  datatype Config = Config(machine: nat, source: string, interval: nat, heartbeat: nat, maxItems: int)

  datatype Agent = Agent(
    queue: Queue<Batch>,
    store: Ingest.Db,
    backoff: int,
    lastHeartbeat: int,
    machineId: Option<nat>,
    nextUuid: nat,
    collected: seq<Batch>)

  const PEEK := 25

  // ----- Sending -----

  /** The server takes the batch: it comes from the enrolled machine and normalises. */
  predicate Takes(store: Ingest.Db, cfg: Config, b: Batch)
    requires cfg.machine < |store.machines|
  {
    b.machine == Some(cfg.machine) && Ingest.Accepts(store, cfg.machine, cfg.source, Items(b))
  }

  function Stored(store: Ingest.Db, cfg: Config, b: Batch, now: int): (r: Ingest.Db)
    requires cfg.machine < |store.machines| && Takes(store, cfg, b)
    ensures |r.machines| == |store.machines|
  {
    Ingest.Ingested(store, cfg.machine, cfg.source, Items(b), now, Ingest.Count(store, cfg.machine, Items(b)))
  }

  function Sent(store: Ingest.Db, cfg: Config, b: Batch, net: Net, now: int): (r: (Ingest.Db, Answer))
    requires cfg.machine < |store.machines|
    ensures |r.0.machines| == |store.machines|
  {
    match net
    case Lost(retryable) => (store, Refused(retryable))
    case Reached(acknowledged, retryable) =>
      if !Takes(store, cfg, b) then (store, Refused(false))
      else (Stored(store, cfg, b, now), if acknowledged then Ok else Refused(retryable))
  }

  // ----- The parts of a cycle -----

  function Greeted(a: Agent, cfg: Config, s: Script): (Agent, Option<Result>) {
    var (known, failed) :=
      if a.machineId.Some? then (a, None)
      else
        match s.firstBeat
        case Alive(id) => (a.(machineId := id), None)
        case Missed(retryable) => (a, Some(Failed(retryable)))
        case Broken => (a, Some(Unexpected));
    if failed.Some? || s.started - known.lastHeartbeat < cfg.heartbeat then (known, failed)
    else
      match s.secondBeat
      case Alive(_) => (known.(lastHeartbeat := s.started), None)
      case Missed(retryable) => (known, Some(Failed(retryable)))
      case Broken => (known, Some(Unexpected))
  }

  function ReplyAt(replies: seq<Reply>, i: nat): Reply {
    if i < |replies| then replies[i] else Reply(Reached(true, true), Goes)
  }

  /** One turn of the flush loop. */
  function FlushedOne(a: Agent, cfg: Config, entry: Entry<Batch>, reply: Reply, now: int): (Agent, Option<Result>)
    requires cfg.machine < |a.store.machines|
  {
    var (store, answer) := Sent(a.store, cfg, entry.payload, reply.net, now);
    var b := a.(store := store);
    if reply.fate.Dies? then (b, Some(Died))
    else if reply.fate.Raises? then (b, Some(Unexpected))
    else if answer.Refused? then (b, Some(Failed(answer.retryable)))
    else (b.(queue := Queue(Without(b.queue.rows, entry.id), b.queue.nextId)), None)
  }

  /** The flush loop from turn k on; the first turn that does not end normally ends it. */
  function Flushed(a: Agent, cfg: Config, entries: seq<Entry<Batch>>, s: Script, k: nat): (r: (Agent, Option<Result>))
    requires cfg.machine < |a.store.machines| && k <= |entries|
    ensures |r.0.store.machines| == |a.store.machines|
    decreases |entries| - k
  {
    if k == |entries| then (a, None)
    else
      var turn := FlushedOne(a, cfg, entries[k], ReplyAt(s.flush, k), s.now);
      if turn.1.Some? then turn else Flushed(turn.0, cfg, entries, s, k + 1)
  }

  /** The batch is drawn and its live request made. */
  function LiveSent(a: Agent, cfg: Config, batch: Batch, net: Net, now: int): (r: (Agent, Answer))
    requires cfg.machine < |a.store.machines|
    ensures r.1.Ok? ==> net.Reached? && Takes(a.store, cfg, batch)
    ensures r.0.queue == a.queue && |r.0.store.machines| == |a.store.machines|
  {
    var (store, answer) := Sent(a.store, cfg, batch, net, now);
    (a.(store := store, nextUuid := a.nextUuid + |batch.readings|, collected := a.collected + [batch]), answer)
  }

  /** How a cycle ends that had to spool its batch. */
  function PushResult(push: PushFate, retryable: bool): Result {
    match push
    case Commits => Failed(retryable)
    case PushRaises => Unexpected
    case _ => Died
  }

  /** Collecting a batch and sending it live. */
  function Delivered(a: Agent, cfg: Config, s: Script): (r: (Agent, Result))
    requires cfg.machine < |a.store.machines|
    ensures |r.0.store.machines| == |a.store.machines|
  {
    match s.collection
    case CollectorRaises => (a, Unexpected)
    case CollectorDies => (a, Died)
    case Got(readings) =>
      var batch := Batch(a.machineId, a.nextUuid, readings);
      var (b, answer) := LiveSent(a, cfg, batch, s.live.net, s.now);
      if s.live.fate.Dies? then (b, Died)
      else if s.live.fate.Raises? then (b, Unexpected)
      else if answer.Ok? then (b, Succeeded)
      else (if s.push.Keeps() then b.(queue := Pushed(b.queue, batch, cfg.maxItems))
          else b, PushResult(s.push, answer.retryable))
  }

  function Settled(a: Agent, result: Result): Agent {
    match result
    case Succeeded => a.(backoff := 1)
    case Failed(retryable) => if retryable then a.(backoff := Min(300, a.backoff * 2)) else a
    case Unexpected => a.(backoff := Min(300, a.backoff * 2))
    case Died => a.(backoff := 1, lastHeartbeat := 0, machineId := None)
  }

  function Attempted(a: Agent, cfg: Config, s: Script): (r: (Agent, Result))
    requires cfg.machine < |a.store.machines|
    ensures |r.0.store.machines| == |a.store.machines|
  {
    var (b, failed) := Greeted(a, cfg, s);
    if failed.Some? then (b, failed.value)
    else
      var entries := Peeked(b.queue, PEEK);
      var (c, end) := Flushed(b, cfg, entries, s, 0);
      if end.Some? then (c, end.value) else Delivered(c, cfg, s)
  }

  function Cycled(a: Agent, cfg: Config, s: Script): (r: Agent)
    requires cfg.machine < |a.store.machines|
    ensures |r.store.machines| == |a.store.machines|
  {
    var (b, result) := Attempted(a, cfg, s);
    Settled(b, result)
  }

  function Run(a: Agent, cfg: Config, scripts: seq<Script>): (r: Agent)
    requires cfg.machine < |a.store.machines|
    ensures |r.store.machines| == |a.store.machines|
  {
    if scripts == [] then a else Cycled(Run(a, cfg, scripts[..|scripts| - 1]), cfg, scripts[|scripts| - 1])
  }

  /** The seconds the loop waits after a cycle: elapsed and jitter are the clock's and the generator's readings. */
  function Wait(result: Result, backoff: int, cfg: Config, elapsed: real, jitter: real): real
    requires backoff >= 0
  {
    match result
    case Succeeded => if cfg.interval as real - elapsed > 0.0 then cfg.interval as real - elapsed else 0.0
    case Failed(retryable) => if retryable then Min(300, backoff) as real + jitter else cfg.interval as real
    case _ => Min(300, backoff) as real
  }

  /** The agent process together with the server it talks to. */
  class AgentRuntime {
    const cfg: Config
    const spool: Spool<Batch>
    const server: Ingest.MetricStore
    var backoff: int
    var lastHeartbeat: int
    var machineId: Option<nat>
    var nextUuid: nat
    ghost var collected: seq<Batch>

    ghost function State(): Agent
      reads this, spool, server
    {
      Agent(spool.State(), server.State(), backoff, lastHeartbeat, machineId, nextUuid, collected)
    }

    ghost predicate Valid()
      reads this, spool, server
    {
      cfg.machine < |server.machines| && spool.maxItems == cfg.maxItems && backoff >= 1
    }

    constructor (cfg: Config, spool: Spool<Batch>, server: Ingest.MetricStore)
      requires cfg.machine < |server.machines| && spool.maxItems == cfg.maxItems
      ensures Valid() && this.cfg == cfg && this.spool == spool && this.server == server
      ensures State() == Agent(spool.State(), server.State(), 1, 0, None, 0, [])
    {
      this.cfg, this.spool, this.server := cfg, spool, server;
      backoff, lastHeartbeat, machineId, nextUuid := 1, 0, None, 0;
      collected := [];
    }

    /** The request of send_metrics and the server's view behind it. */
    method Send(batch: Batch, net: Net, now: int) returns (answer: Answer)
      requires Valid()
      modifies server
      ensures Valid() && (server.State(), answer) == Sent(old(server.State()), cfg, batch, net, now)
    {
      if net.Lost? {
        return Refused(net.retryable);
      }
      if batch.machine != Some(cfg.machine) {
        return Refused(false);
      }
      var known := Ingest.KnownKeys(server.table, server.machines[cfg.machine].customer);
      Ingest.KnownKeysAreTaken(server.table, server.machines[cfg.machine].customer);
      var outcome := server.IngestMetrics(cfg.machine, cfg.source, Items(batch), now, known);
      if outcome.Rejected? {
        return Refused(false);
      }
      return if net.acknowledged then Ok else Refused(net.retryable);
    }

    /** One turn of the flush loop: the batch is sent and, once acknowledged, deleted. */
    method FlushOne(entry: Entry<Batch>, reply: Reply, now: int) returns (end: Option<Result>)
      requires Valid()
      modifies spool, server
      ensures Valid() && (State(), end) == FlushedOne(old(State()), cfg, entry, reply, now)
    {
      var answer := Send(entry.payload, reply.net, now);
      if reply.fate.Dies? {
        return Some(Died);
      }
      if reply.fate.Raises? {
        return Some(Unexpected);
      }
      if answer.Refused? {
        return Some(Failed(answer.retryable));
      }
      spool.Delete(entry.id);
      return None;
    }

    /** Sends the oldest spooled batches one by one, deleting each that is acknowledged. */
    method Flush(s: Script) returns (end: Option<Result>)
      requires Valid()
      modifies spool, server
      ensures Valid()
      ensures (State(), end) == Flushed(old(State()), cfg, Peeked(old(spool.State()), PEEK), s, 0)
    {
      var entries := spool.Peek(PEEK);
      ghost var whole := Flushed(State(), cfg, entries, s, 0);
      for i := 0 to |entries|
        invariant Valid()
        invariant Flushed(State(), cfg, entries, s, i) == whole
      {
        end := FlushOne(entries[i], ReplyAt(s.flush, i), s.now);
        if end.Some? {
          return;
        }
      }
      end := None;
    }

    /** The heartbeats at the start of a cycle. */
    method Greet(s: Script) returns (failed: Option<Result>)
      requires Valid()
      modifies this`machineId, this`lastHeartbeat
      ensures Valid() && (State(), failed) == Greeted(old(State()), cfg, s)
    {
      if machineId.None? {
        match s.firstBeat
        case Alive(id) => machineId := id;
        case Missed(retryable) => return Some(Failed(retryable));
        case Broken => return Some(Unexpected);
      }
      if s.started - lastHeartbeat >= cfg.heartbeat {
        match s.secondBeat
        case Alive(_) => lastHeartbeat := s.started;
        case Missed(retryable) => return Some(Failed(retryable));
        case Broken => return Some(Unexpected);
      }
      failed := None;
    }

    /** Collects a batch, sends it, and spools it when the request is refused, unless something else goes wrong. */
    method CollectAndSend(s: Script) returns (result: Result)
      requires Valid()
      modifies this`nextUuid, this`collected, spool, server
      ensures Valid() && (State(), result) == Delivered(old(State()), cfg, s)
    {
      if s.collection.CollectorRaises? {
        return Unexpected;
      }
      if s.collection.CollectorDies? {
        return Died;
      }
      var batch := Batch(machineId, nextUuid, s.collection.readings);
      nextUuid := nextUuid + |s.collection.readings|;
      collected := collected + [batch];
      var answer := Send(batch, s.live.net, s.now);
      match s.live.fate
      case Dies => return Died;
      case Raises => return Unexpected;
      case Goes =>
        if answer.Ok? {
          return Succeeded;
        }
        if s.push.Keeps() {
          spool.Push(batch);
        }
        return PushResult(s.push, answer.retryable);
    }

    /** One turn of the main loop, and how long it waits afterwards. */
    method Cycle(s: Script, elapsed: real, jitter: real) returns (result: Result, delay: real)
      requires Valid()
      modifies this, spool, server
      ensures Valid() && State() == Cycled(old(State()), cfg, s)
      ensures result == Attempted(old(State()), cfg, s).1
      ensures delay == Wait(result, old(backoff), cfg, elapsed, jitter)
    {
      var failed := Greet(s);
      if failed.None? {
        failed := Flush(s);
      }
      if failed.Some? {
        result := failed.value;
      } else {
        result := CollectAndSend(s);
      }
      delay := Wait(result, backoff, cfg, elapsed, jitter);
      match result
      case Succeeded => backoff := 1;
      case Failed(retryable) =>
        if retryable {
          backoff := Min(300, backoff * 2);
        }
      case Unexpected => backoff := Min(300, backoff * 2);
      case Died => backoff, lastHeartbeat, machineId := 1, 0, None;
    }

    /** The main loop until it is stopped. */
    method MainLoop(scripts: seq<Script>, elapsed: seq<real>, jitter: seq<real>)
      requires Valid() && |elapsed| == |scripts| == |jitter|
      modifies this, spool, server
      ensures Valid() && State() == Run(old(State()), cfg, scripts)
    {
      ghost var start := State();
      for i := 0 to |scripts|
        invariant Valid() && State() == Run(start, cfg, scripts[..i])
      {
        assert scripts[..i + 1][..i] == scripts[..i];
        var _, _ := Cycle(scripts[i], elapsed[i], jitter[i]);
      }
      assert scripts[..|scripts|] == scripts;
    }
  }
}
