/**
 * Connector reconciliation: one transaction makes the assets, machines and metrics of a
 * connector agree with a collected payload.
 */
module Reconcile {
  import opened Common
  import Ingest

  /** How a collected metric carries its idempotency key: not at all, as an empty value, or as a text of some length. */
  datatype KeyField = Absent | Empty | Given(key: Ingest.MetricKey, length: nat)

  /** A collected metric; an unsound one is refused by the normaliser whatever its key is. */
  datatype RawItem = RawItem(key: KeyField, name: string, value: Option<real>, timestamp: int, sound: bool)

  /** A host, virtual machine or datastore; None is a missing entry. */
  datatype Resource = Resource(
    external: Option<string>,
    name: Option<string>,
    state: Option<string>,
    kind: Option<string>,
    parent: Option<string>,
    metrics: seq<RawItem>)

  datatype Payload = Payload(collectedAt: string, hosts: seq<Resource>, vms: seq<Resource>, datastores: seq<Resource>)

  datatype Connector = Connector(id: nat, customer: nat, kind: string)

  datatype Asset = Asset(
    connector: nat,
    customer: nat,
    external: string,
    machine: Option<nat>,
    parent: string,
    kind: string,
    name: string,
    state: string,
    lastSeen: int)

  /** A published machine.offline event. */
  datatype Gone = Gone(machine: nat, hostname: string)

  datatype Db = Db(store: Ingest.Db, assets: seq<Asset>, offline: seq<Gone>)

  datatype Counts = Counts(hosts: nat, vms: nat, datastores: nat, metrics: nat)

  function Resources(p: Payload): seq<Resource> {
    p.hosts + p.vms + p.datastores
  }

  // ----- Reading a resource -----

  function Lower(c: char): char {
    if 'A' <= c <= 'Z' then (c as int + 32) as char else c
  }

  function Lowered(s: string): string {
    seq(|s|, i requires 0 <= i < |s| => Lower(s[i]))
  }

  const OFFLINE_STATES := {"poweredoff", "off", "stopped", "unavailable", "inaccessible"}

  predicate IsOffline(state: string) {
    Lowered(state) in OFFLINE_STATES
  }

  function StateOf(r: Resource): string {
    r.state.UnwrapOr("")
  }

  function PowerOf(r: Resource): Ingest.Power {
    if IsOffline(StateOf(r)) then Ingest.Offline else Ingest.Online
  }

  function MachineOf(c: Connector, r: Resource, now: int): Ingest.Machine
    requires r.external.Some?
  {
    var hostname := if r.name.None? || r.name.value == "" then r.external.value else r.name.value;
    Ingest.Machine(c.customer, c.kind, Some(c.id), r.external.value, hostname, PowerOf(r), Some(now))
  }

  function AssetOf(c: Connector, r: Resource, machine: nat, now: int): Asset
    requires r.external.Some?
  {
    Asset(c.id, c.customer, r.external.value, Some(machine), r.parent.UnwrapOr(""), r.kind.UnwrapOr("VM"),
          r.name.UnwrapOr(r.external.value), StateOf(r), now)
  }

  function Digits(n: nat): nat {
    if n < 10 then 1 else 1 + Digits(n / 10)
  }

  /** The length of the default key: a UUID, the resource, the collection time and the index, joined by colons. */
  function DefaultKeyLength(external: string, at: string, index: nat): nat {
    36 + 1 + |external| + 1 + |at| + 1 + Digits(index)
  }

  const KEY_LIMIT := 128

  function KeyedItem(c: Connector, external: string, at: string, index: nat, raw: RawItem): Ingest.Item {
    if !raw.sound then Ingest.Invalid
    else
      match raw.key
      case Absent =>
        if DefaultKeyLength(external, at, index) > KEY_LIMIT then Ingest.Invalid
        else Ingest.Valid(Some(Ingest.Place(c.id, external, at, index)), raw.name, raw.value, raw.timestamp)
      case Empty => Ingest.Valid(None, raw.name, raw.value, raw.timestamp)
      case Given(key, length) =>
        if length > KEY_LIMIT then Ingest.Invalid else Ingest.Valid(Some(key), raw.name, raw.value, raw.timestamp)
  }

  function KeyedItems(c: Connector, external: string, at: string, raws: seq<RawItem>): seq<Ingest.Item> {
    seq(|raws|, i requires 0 <= i < |raws| => KeyedItem(c, external, at, i, raws[i]))
  }

  /** What setting the default key leaves in the payload. */
  function Written(c: Connector, external: string, at: string, index: nat, raw: RawItem): RawItem {
    if raw.key.Absent?
    then raw.(key := Given(Ingest.Place(c.id, external, at, index), DefaultKeyLength(external, at, index)))
    else raw
  }

  function WrittenAll(c: Connector, external: string, at: string, raws: seq<RawItem>): seq<RawItem> {
    seq(|raws|, i requires 0 <= i < |raws| => Written(c, external, at, i, raws[i]))
  }

  /**
   * Keys are given once: the payload left behind is keyed alike whenever, and under whatever time, it is used
   * again.
   */
  lemma KeysAreGivenOnce(c: Connector, external: string, at: string, later: string, raws: seq<RawItem>)
    ensures KeyedItems(c, external, later, WrittenAll(c, external, at, raws)) == KeyedItems(c, external, at, raws)
  {
    var written := WrittenAll(c, external, at, raws);
    forall i | 0 <= i < |raws|
      ensures KeyedItem(c, external, later, i, written[i]) == KeyedItem(c, external, at, i, raws[i])
    {
      assert written[i] == Written(c, external, at, i, raws[i]);
    }
  }

  // ----- What the rows of a resource show -----

  /** The texts are the same, capitals of the first counting as small letters. */
  predicate ReadsAs(s: string, small: string) {
    && |s| == |small|
    && forall i :: 0 <= i < |s| ==> s[i] == small[i] || ('A' <= s[i] <= 'Z' && s[i] as int + 32 == small[i] as int)
  }

  predicate NamesOff(state: string) {
    || ReadsAs(state, "poweredoff") || ReadsAs(state, "off") || ReadsAs(state, "stopped")
    || ReadsAs(state, "unavailable") || ReadsAs(state, "inaccessible")
  }

  lemma LoweredReads(s: string, small: string)
    requires forall i :: 0 <= i < |small| ==> 'a' <= small[i] <= 'z'
    ensures Lowered(s) == small <==> ReadsAs(s, small)
  {
    if ReadsAs(s, small) {
      assert forall i :: 0 <= i < |s| ==> Lower(s[i]) == small[i];
      assert Lowered(s) == small;
    }
  }

  /** A state means that the machine is off exactly when it reads as one of five words. */
  lemma OfflineExactlyWhenNamed(state: string)
    ensures IsOffline(state) <==> NamesOff(state)
  {
    LoweredReads(state, "poweredoff");
    LoweredReads(state, "off");
    LoweredReads(state, "stopped");
    LoweredReads(state, "unavailable");
    LoweredReads(state, "inaccessible");
  }

  /** The asset row shows the resource, with what is missing made up for. */
  predicate ShowsAsset(a: Asset, c: Connector, r: Resource, now: int) {
    && Some(a.external) == r.external && a.connector == c.id && a.customer == c.customer && a.lastSeen == now
    && (r.name == Some(a.name) || (r.name == None && a.name == a.external))
    && (r.kind == Some(a.kind) || (r.kind == None && a.kind == "VM"))
    && (r.parent == Some(a.parent) || (r.parent == None && a.parent == ""))
    && (r.state == Some(a.state) || (r.state == None && a.state == ""))
  }

  /** The machine row shows the resource. */
  predicate ShowsMachine(m: Ingest.Machine, c: Connector, r: Resource, now: int) {
    && Some(m.external) == r.external && m.connector == Some(c.id) && m.customer == c.customer && m.source == c.kind
    && m.lastSeen == Some(now)
    && (if r.name in {None, Some("")} then m.hostname == m.external else r.name == Some(m.hostname))
    && (m.power.Offline? <==> r.state.Some? && NamesOff(r.state.value))
    && (m.power.Online? <==> !m.power.Offline?)
  }

  lemma RowsShowTheResource(c: Connector, r: Resource, machine: nat, now: int)
    requires r.external.Some?
    ensures ShowsAsset(AssetOf(c, r, machine, now), c, r, now) && ShowsMachine(MachineOf(c, r, now), c, r, now)
  {
    OfflineExactlyWhenNamed(StateOf(r));
  }

  /** The key a metric is stored under: its own, none, or its place in the payload. */
  function KeyFor(c: Connector, external: string, at: string, j: nat, raw: RawItem): Option<Ingest.MetricKey> {
    match raw.key
    case Absent => Some(Ingest.Place(c.id, external, at, j))
    case Empty => None
    case Given(key, _) => Some(key)
  }

  /** A collected metric is refused when it is unsound or its key is longer than 128 characters. */
  predicate IsRefused(external: string, at: string, j: nat, raw: RawItem) {
    || !raw.sound
    || (raw.key.Given? && raw.key.length > 128)
    || (raw.key.Absent?
        && 36 + |external| + |at| + 3 + (if j < 10 then 1 else if j < 100 then 2 else if j < 1000 then 3 else 4) > 128)
  }

  lemma DigitsInNumbers(n: nat)
    requires n < 10000
    ensures Digits(n) == if n < 10 then 1 else if n < 100 then 2 else if n < 1000 then 3 else 4
  {
    if n >= 10 {
      assert Digits(n) == 1 + Digits(n / 10);
      if n >= 100 {
        assert Digits(n / 10) == 1 + Digits(n / 10 / 10);
        if n >= 1000 {
          assert Digits(n / 10 / 10) == 1 + Digits(n / 10 / 10 / 10);
        }
      }
    }
  }

  /** A metric is keyed and passed on as it was measured, or refused. */
  lemma ItemShowsTheMetric(c: Connector, external: string, at: string, j: nat, raw: RawItem)
    requires j < 10000
    ensures var item := KeyedItem(c, external, at, j, raw);
            && (item.Invalid? <==> IsRefused(external, at, j, raw))
            && (item.Valid? ==>
                  && item.key == KeyFor(c, external, at, j, raw) && item.name == raw.name
                  && item.value == raw.value && item.timestamp == raw.timestamp)
  {
    DigitsInNumbers(j);
  }

  // ----- Upserts -----

  predicate IsMachine(m: Ingest.Machine, c: Connector, external: string) {
    m.customer == c.customer && m.source == c.kind && m.connector == Some(c.id) && m.external == external
  }

  predicate IsAsset(a: Asset, c: Connector, external: string) {
    a.connector == c.id && a.external == external
  }

  /** The row of the machine, or the place of a new one. */
  function MachineIndex(machines: seq<Ingest.Machine>, c: Connector, external: string): (i: nat)
    ensures i <= |machines|
  {
    if machines == [] || IsMachine(machines[0], c, external) then 0 else 1 + MachineIndex(machines[1..], c, external)
  }

  function AssetIndex(assets: seq<Asset>, c: Connector, external: string): (i: nat)
    ensures i <= |assets|
  {
    if assets == [] || IsAsset(assets[0], c, external) then 0 else 1 + AssetIndex(assets[1..], c, external)
  }

  lemma {:induction false} MachineIndexFinds(machines: seq<Ingest.Machine>, c: Connector, external: string)
    ensures var i := MachineIndex(machines, c, external);
            && (i < |machines| ==> IsMachine(machines[i], c, external))
            && forall k :: 0 <= k < i ==> !IsMachine(machines[k], c, external)
  {
    if machines != [] && !IsMachine(machines[0], c, external) {
      MachineIndexFinds(machines[1..], c, external);
    }
  }

  lemma {:induction false} AssetIndexFinds(assets: seq<Asset>, c: Connector, external: string)
    ensures var i := AssetIndex(assets, c, external);
            && (i < |assets| ==> IsAsset(assets[i], c, external))
            && forall k :: 0 <= k < i ==> !IsAsset(assets[k], c, external)
  {
    if assets != [] && !IsAsset(assets[0], c, external) {
      AssetIndexFinds(assets[1..], c, external);
    }
  }

  function Put<T>(s: seq<T>, i: nat, x: T): (r: seq<T>)
    requires i <= |s|
    ensures i < |r| && r[i] == x
  {
    if i < |s| then s[i := x] else s + [x]
  }

  // ----- One resource -----

  function WithMachine(store: Ingest.Db, c: Connector, r: Resource, now: int): Ingest.Db
    requires r.external.Some?
  {
    store.(machines := Put(store.machines, MachineIndex(store.machines, c, r.external.value), MachineOf(c, r, now)))
  }

  /** Ingestion marks the machine online; an offline resource's machine is set offline again. */
  function WithMetrics(store: Ingest.Db, c: Connector, r: Resource, machine: nat, items: seq<Ingest.Item>,
                       now: int): Ingest.Db
    requires machine < |store.machines| && Ingest.Accepts(store, machine, c.kind, items)
  {
    var after := Ingest.Ingested(store, machine, c.kind, items, now, Ingest.Count(store, machine, items));
    if PowerOf(r).Online? then after
    else after.(machines := after.machines[machine := after.machines[machine].(power := Ingest.Offline)])
  }

  function Reconciled(db: Db, c: Connector, at: string, r: Resource, now: int): Option<(Db, nat)> {
    if r.external.None? then None
    else
      var external := r.external.value;
      var machine := MachineIndex(db.store.machines, c, external);
      var store := WithMachine(db.store, c, r, now);
      var assets := Put(db.assets, AssetIndex(db.assets, c, external), AssetOf(c, r, machine, now));
      if r.metrics == [] then Some((Db(store, assets, db.offline), 0))
      else
        var items := KeyedItems(c, external, at, r.metrics);
        if !Ingest.Accepts(store, machine, c.kind, items) then None
        else Some((Db(WithMetrics(store, c, r, machine, items, now), assets, db.offline),
            Ingest.Count(store, machine, items)))
  }

  /** What one more resource makes of a loop that may have raised already. */
  function Then(done: Option<(Db, nat)>, c: Connector, at: string, r: Resource, now: int): Option<(Db, nat)> {
    if done.None? then None
    else
      var after := Reconciled(done.value.0, c, at, r, now);
      if after.None? then None else Some((after.value.0, done.value.1 + after.value.1))
  }

  function ReconciledAll(db: Db, c: Connector, at: string, resources: seq<Resource>, now: int): Option<(Db, nat)> {
    if resources == [] then Some((db, 0))
    else Then(ReconciledAll(db, c, at, resources[..|resources| - 1], now), c, at, resources[|resources| - 1], now)
  }

  // ----- The assets that are gone -----

  predicate IsStale(a: Asset, c: Connector, seen: set<string>) {
    a.connector == c.id && a.external !in seen
  }

  /** The offline transition a stale asset causes, going by the machine rows the query loaded. */
  predicate GoesOffline(a: Asset, machines: seq<Ingest.Machine>) {
    a.machine.Some? && a.machine.value < |machines| && !machines[a.machine.value].power.Offline?
  }

  function Retired1(db: Db, loaded: seq<Ingest.Machine>, c: Connector, seen: set<string>, i: nat): (r: Db)
    requires i < |db.assets| && |db.store.machines| == |loaded|
    ensures |r.assets| == |db.assets| && |r.store.machines| == |loaded|
  {
    var a := db.assets[i];
    if !IsStale(a, c, seen) then db
    else
      var assets := db.assets[i := a.(state := "UNAVAILABLE")];
      if !GoesOffline(a, loaded) then db.(assets := assets)
      else
        var m := a.machine.value;
        Db(db.store.(machines := db.store.machines[m := db.store.machines[m].(power := Ingest.Offline)]),
           assets, db.offline + [Gone(m, loaded[m].hostname)])
  }

  /** The loop over the first n assets. */
  function Retired(db: Db, c: Connector, seen: set<string>, n: nat): (r: Db)
    requires n <= |db.assets|
    ensures |r.assets| == |db.assets| && |r.store.machines| == |db.store.machines|
  {
    if n == 0 then db else Retired1(Retired(db, c, seen, n - 1), db.store.machines, c, seen, n - 1)
  }

  // ----- The transaction -----

  function Seen(resources: seq<Resource>): (r: set<string>)
    ensures forall x :: x in r <==> exists i :: 0 <= i < |resources| && resources[i].external == Some(x)
  {
    set i | 0 <= i < |resources| && resources[i].external.Some? :: resources[i].external.value
  }

  function Persisted(db: Db, c: Connector, p: Payload, now: int): (Db, Option<Counts>) {
    match ReconciledAll(db, c, p.collectedAt, Resources(p), now)
    case None => (db, None)
    case Some(done) =>
      (Retired(done.0, c, Seen(Resources(p)), |done.0.assets|),
       Some(Counts(|p.hosts|, |p.vms|, |p.datastores|, done.1)))
  }

  class Reconciler {
    const store: Ingest.MetricStore
    var assets: seq<Asset>
    var offline: seq<Gone>

    ghost function State(): Db
      reads this, store
    {
      Db(store.State(), assets, offline)
    }

    constructor (store: Ingest.MetricStore)
      ensures this.store == store && State() == Db(store.State(), [], [])
    {
      this.store, assets, offline := store, [], [];
    }

    /** Gives the metrics of a resource their default keys. */
    method KeyItems(c: Connector, external: string, at: string, raws: seq<RawItem>) returns (items: seq<Ingest.Item>)
      ensures items == KeyedItems(c, external, at, raws)
    {
      items := [];
      for index := 0 to |raws|
        invariant |items| == index
        invariant forall i :: 0 <= i < index ==> items[i] == KeyedItem(c, external, at, i, raws[i])
      {
        items := items + [KeyedItem(c, external, at, index, raws[index])];
      }
    }

    /**
     * One turn of the outer loop; on None something was raised, and what was written so far stays to be
     * rolled back.
     */
    method PersistResource(c: Connector, at: string, r: Resource, now: int, metricCount: nat)
      returns (total: Option<nat>)
      modifies this`assets, store
      ensures total.None? ==> Then(Some((old(State()), metricCount)), c, at, r, now) == None
      ensures total.Some? ==> Then(Some((old(State()), metricCount)), c, at, r, now) == Some((State(), total.value))
      ensures total.Some? ==> r.external.Some?
    {
      if r.external.None? {
        return None;
      }
      var external := r.external.value;
      var machine := MachineIndex(store.machines, c, external);
      store.machines := Put(store.machines, machine, MachineOf(c, r, now));
      assets := Put(assets, AssetIndex(assets, c, external), AssetOf(c, r, machine, now));
      if r.metrics == [] {
        return Some(metricCount);
      }
      var items := KeyItems(c, external, at, r.metrics);
      Ingest.KnownKeysAreTaken(store.table, c.customer);
      var outcome := store.IngestMetrics(machine, c.kind, items, now, Ingest.KnownKeys(store.table, c.customer));
      if outcome.Rejected? {
        return None;
      }
      if PowerOf(r).Offline? {
        store.machines := store.machines[machine := store.machines[machine].(power := Ingest.Offline)];
      }
      return Some(metricCount + outcome.count);
    }

    /** The second loop: assets the payload did not list. */
    method RetireStale(c: Connector, seen: set<string>)
      modifies this, store`machines
      ensures State() == Retired(old(State()), c, seen, |old(assets)|)
    {
      var loaded := store.machines;
      for i := 0 to |assets|
        invariant |assets| == |old(assets)|
        invariant State() == Retired(old(State()), c, seen, i)
      {
        var a := assets[i];
        if !IsStale(a, c, seen) {
          continue;
        }
        assets := assets[i := a.(state := "UNAVAILABLE")];
        if GoesOffline(a, loaded) {
          var m := a.machine.value;
          store.machines := store.machines[m := store.machines[m].(power := Ingest.Offline)];
          offline := offline + [Gone(m, loaded[m].hostname)];
        }
      }
    }

    /** The outer loop. */
    method PersistResources(c: Connector, at: string, resources: seq<Resource>, now: int)
      returns (count: Option<nat>, seen: set<string>)
      modifies this`assets, store
      ensures count.None? ==> ReconciledAll(old(State()), c, at, resources, now).None?
      ensures count.Some? ==> ReconciledAll(old(State()), c, at, resources, now) == Some((State(), count.value))
      ensures count.Some? ==> seen == Seen(resources)
    {
      ghost var start := State();
      var metricCount := 0;
      seen := {};
      for i := 0 to |resources|
        invariant metricCount >= 0
        invariant ReconciledAll(start, c, at, resources[..i], now) == Some((State(), metricCount))
        invariant seen == Seen(resources[..i])
      {
        ghost var before := State();
        OneMoreResource(start, c, at, resources, i, now, before, metricCount);
        var total := PersistResource(c, at, resources[i], now, metricCount);
        if total.None? {
          StopsAtTheFirst(start, c, at, resources, i + 1, now);
          return None, {};
        }
        OneMoreSeen(resources, i);
        seen := seen + {resources[i].external.value};
        metricCount := total.value;
      }
      assert resources[..|resources|] == resources;
      return Some(metricCount), seen;
    }

    /** persist_collection: all of it, or nothing when a resource is malformed. */
    method PersistCollection(c: Connector, p: Payload, now: int) returns (counts: Option<Counts>)
      modifies this, store
      ensures (State(), counts) == Persisted(old(State()), c, p, now)
    {
      var savedTable, savedMachines, savedUpdates, savedAssets := store.table, store.machines, store.updates, assets;
      var metricCount, seenExternalIds := PersistResources(c, p.collectedAt, Resources(p), now);
      if metricCount.None? {
        store.table, store.machines, store.updates, assets := savedTable, savedMachines, savedUpdates, savedAssets;
        return None;
      }
      RetireStale(c, seenExternalIds);
      return Some(Counts(|p.hosts|, |p.vms|, |p.datastores|, metricCount.value));
    }
  }

  lemma OneMoreResource(db: Db, c: Connector, at: string, resources: seq<Resource>, i: nat, now: int, before: Db,
                        count: nat)
    requires i < |resources| && ReconciledAll(db, c, at, resources[..i], now) == Some((before, count))
    ensures ReconciledAll(db, c, at, resources[..i + 1], now) == Then(Some((before, count)), c, at, resources[i], now)
  {
    var longer := resources[..i + 1];
    assert longer[..|longer| - 1] == resources[..i] && longer[|longer| - 1] == resources[i] && longer != [];
  }

  lemma OneMoreSeen(resources: seq<Resource>, i: nat)
    requires i < |resources| && resources[i].external.Some?
    ensures Seen(resources[..i + 1]) == Seen(resources[..i]) + {resources[i].external.value}
  {
    var longer := resources[..i + 1];
    assert forall k :: 0 <= k < i ==> longer[k] == resources[..i][k];
    assert longer[i] == resources[i];
  }

  lemma {:induction false} StopsAtTheFirst(db: Db, c: Connector, at: string, resources: seq<Resource>, n: nat, now: int)
    requires n <= |resources| && ReconciledAll(db, c, at, resources[..n], now).None?
    ensures ReconciledAll(db, c, at, resources, now).None?
    decreases |resources|
  {
    if n == |resources| {
      assert resources[..n] == resources;
    } else {
      var init := resources[..|resources| - 1];
      assert init[..n] == resources[..n];
      StopsAtTheFirst(db, c, at, init, n, now);
    }
  }
}
