/**
 * What a reconciliation leaves behind: the connector's rows agree with the payload, nobody
 * else's rows change, and running it again on the same payload changes nothing.
 */
module ReconcileSafety {
  import opened Common
  import opened Reconcile
  import Ingest

  // ----- What the constraints keep -----

  predicate SameMachine(a: Ingest.Machine, b: Ingest.Machine) {
    a.customer == b.customer && a.source == b.source && a.connector == b.connector && a.external == b.external
  }

  predicate SameAsset(a: Asset, b: Asset) {
    a.connector == b.connector && a.external == b.external
  }

  /** The constraint uniq_machine_source_external. */
  ghost predicate UniqueMachines(machines: seq<Ingest.Machine>) {
    forall i, j :: 0 <= i < j < |machines| ==> !SameMachine(machines[i], machines[j])
  }

  /** The constraint uniq_asset_connector_external. */
  ghost predicate UniqueAssets(assets: seq<Asset>) {
    forall i, j :: 0 <= i < j < |assets| ==> !SameAsset(assets[i], assets[j])
  }

  predicate LinkedTo(a: Asset, machines: seq<Ingest.Machine>) {
    a.machine.Some? ==>
      && a.machine.value < |machines|
      && machines[a.machine.value].connector == Some(a.connector)
      && machines[a.machine.value].external == a.external
  }

  /** Every asset is linked to the machine row made for it, or to none. */
  ghost predicate Linked(db: Db) {
    forall i :: 0 <= i < |db.assets| ==> LinkedTo(db.assets[i], db.store.machines)
  }

  ghost predicate Sound(db: Db) {
    UniqueMachines(db.store.machines) && UniqueAssets(db.assets) && Linked(db) && Ingest.UniqueKeys(db.store.table)
  }

  // ----- One resource -----

  function Rows(c: Connector, at: string, r: Resource, machine: nat): seq<Ingest.Row>
    requires !Malformed(c, at, r)
  {
    if r.metrics == [] then []
    else Ingest.RowsOf(c.customer, machine, KeyedItems(c, r.external.value, at, r.metrics))
  }

  /** What makes persist_collection raise. */
  predicate Malformed(c: Connector, at: string, r: Resource) {
    r.external.None? || (r.metrics != [] && !Ingest.Normalizes(KeyedItems(c, r.external.value, at, r.metrics)))
  }

  /** A resource upserts one machine and one asset and inserts its metrics; it raises exactly when it is malformed. */
  lemma ReconciledRows(db: Db, c: Connector, at: string, r: Resource, now: int)
    ensures Reconciled(db, c, at, r, now).None? <==> Malformed(c, at, r)
    ensures !Malformed(c, at, r) ==>
              var machine := MachineIndex(db.store.machines, c, r.external.value);
              var after := Reconciled(db, c, at, r, now).value.0;
              && after.store.machines == Put(db.store.machines, machine, MachineOf(c, r, now))
              && after.assets == Put(db.assets, AssetIndex(db.assets, c, r.external.value), AssetOf(c, r, machine, now))
              && after.store.table == Ingest.InsertAll(db.store.table, Rows(c, at, r, machine))
              && after.offline == db.offline
  {
    if !Malformed(c, at, r) && r.metrics != [] {
      var machine := MachineIndex(db.store.machines, c, r.external.value);
      var items := KeyedItems(c, r.external.value, at, r.metrics);
      var store := WithMachine(db.store, c, r, now);
      assert store.machines[machine] == MachineOf(c, r, now);
      MetricsLeaveTheMachine(store, c, r, machine, items, now);
    }
  }

  lemma MetricsLeaveTheMachine(store: Ingest.Db, c: Connector, r: Resource, machine: nat, items: seq<Ingest.Item>,
                               now: int)
    requires r.external.Some? && machine < |store.machines| && store.machines[machine] == MachineOf(c, r, now)
    requires Ingest.Normalizes(items)
    ensures Ingest.Accepts(store, machine, c.kind, items)
    ensures WithMetrics(store, c, r, machine, items, now).machines == store.machines
    ensures WithMetrics(store, c, r, machine, items, now).table
         == Ingest.InsertAll(store.table, Ingest.RowsOf(c.customer, machine, items))
  {
  }

  // ----- The latest occurrence wins -----

  /** The last resource of a payload with the identifier. */
  function Latest(resources: seq<Resource>, external: string): (r: Option<Resource>)
    ensures r.Some? ==> r.value.external == Some(external)
  {
    if resources == [] then None
    else if resources[|resources| - 1].external == Some(external) then Some(resources[|resources| - 1])
    else Latest(resources[..|resources| - 1], external)
  }

  predicate ListedMachine(m: Ingest.Machine, c: Connector, resources: seq<Resource>) {
    IsMachine(m, c, m.external) && Latest(resources, m.external).Some?
  }

  predicate ListedAsset(a: Asset, c: Connector, resources: seq<Resource>) {
    a.connector == c.id && Latest(resources, a.external).Some?
  }

  ghost predicate MachinesAgree(was: seq<Ingest.Machine>, machines: seq<Ingest.Machine>, c: Connector,
                                resources: seq<Resource>, now: int) {
    && |was| <= |machines|
    && (forall i :: 0 <= i < |was| ==> SameMachine(was[i], machines[i]))
    && (forall i :: 0 <= i < |machines| && ListedMachine(machines[i], c, resources) ==>
          machines[i] == MachineOf(c, Latest(resources, machines[i].external).value, now))
    && (forall i :: 0 <= i < |machines| && !ListedMachine(machines[i], c, resources) ==>
          i < |was| && machines[i] == was[i])
  }

  ghost predicate AssetsAgree(was: seq<Asset>, db: Db, c: Connector, resources: seq<Resource>, now: int) {
    && |was| <= |db.assets|
    && (forall i :: 0 <= i < |was| ==> SameAsset(was[i], db.assets[i]))
    && (forall i :: 0 <= i < |db.assets| && ListedAsset(db.assets[i], c, resources) ==>
          CarriesLatest(db.assets[i], db.store.machines, c, resources, now))
    && (forall i :: 0 <= i < |db.assets| && !ListedAsset(db.assets[i], c, resources) ==>
          i < |was| && db.assets[i] == was[i])
  }

  predicate CarriesLatest(a: Asset, machines: seq<Ingest.Machine>, c: Connector, resources: seq<Resource>, now: int) {
    var latest := Latest(resources, a.external);
    && latest.Some? && a.machine.Some? && a.machine.value < |machines|
    && a == AssetOf(c, latest.value, a.machine.value, now)
    && IsMachine(machines[a.machine.value], c, a.external)
  }

  predicate HasAsset(assets: seq<Asset>, c: Connector, external: string) {
    exists i :: 0 <= i < |assets| && IsAsset(assets[i], c, external)
  }

  lemma MachineStep(was: seq<Ingest.Machine>, machines: seq<Ingest.Machine>, c: Connector,
                    resources: seq<Resource>, r: Resource, now: int)
    requires UniqueMachines(machines) && MachinesAgree(was, machines, c, resources, now) && r.external.Some?
    ensures var after := Put(machines, MachineIndex(machines, c, r.external.value), MachineOf(c, r, now));
            UniqueMachines(after) && MachinesAgree(was, after, c, resources + [r], now)
  {
    var external := r.external.value;
    var at := MachineIndex(machines, c, external);
    var after := Put(machines, at, MachineOf(c, r, now));
    MachineIndexFinds(machines, c, external);
    assert (resources + [r])[..|resources + [r]| - 1] == resources;
    forall i | 0 <= i < |after| && i != at
      ensures after[i] == machines[i] && !IsMachine(after[i], c, external)
    {
      if at < |machines| {
        assert !SameMachine(machines[i], machines[at]) || i == at;
      }
    }
  }

  lemma PutAsset(assets: seq<Asset>, c: Connector, external: string, a: Asset)
    requires UniqueAssets(assets) && IsAsset(a, c, external)
    ensures var at := AssetIndex(assets, c, external);
            var after := Put(assets, at, a);
            && UniqueAssets(after) && |assets| <= |after| && at < |after| && after[at] == a
            && (forall i :: 0 <= i < |after| && i != at ==>
                 i < |assets| && after[i] == assets[i] && !IsAsset(after[i], c, external))
            && (at < |assets| ==> IsAsset(assets[at], c, external))
  {
    var at := AssetIndex(assets, c, external);
    AssetIndexFinds(assets, c, external);
    forall i | 0 <= i < |assets| && i != at
      ensures !IsAsset(assets[i], c, external)
    {
      if at < |assets| {
        assert !SameAsset(assets[i], assets[at]) || i == at;
      }
    }
  }

  lemma PutHasAsset(assets: seq<Asset>, c: Connector, external: string, a: Asset, x: string)
    requires UniqueAssets(assets) && IsAsset(a, c, external)
    ensures HasAsset(Put(assets, AssetIndex(assets, c, external), a), c, x) <==> HasAsset(assets, c, x) || x == external
  {
    PutAsset(assets, c, external, a);
    var at := AssetIndex(assets, c, external);
    var after := Put(assets, at, a);
    assert IsAsset(after[at], c, external);
    if HasAsset(assets, c, x) && x != external {
      var i :| 0 <= i < |assets| && IsAsset(assets[i], c, x);
      assert IsAsset(after[i], c, x);
    }
  }

  /** The asset table after an upsert of the resource whose machine has the given key. */
  predicate AssetPut(db: Db, after: Db, c: Connector, r: Resource, machine: nat, now: int) {
    && r.external.Some?
    && machine < |after.store.machines| && IsMachine(after.store.machines[machine], c, r.external.value)
    && |db.store.machines| <= |after.store.machines|
    && (forall i :: 0 <= i < |db.store.machines| ==> SameMachine(db.store.machines[i], after.store.machines[i]))
    && after.assets == Put(db.assets, AssetIndex(db.assets, c, r.external.value), AssetOf(c, r, machine, now))
  }

  lemma AssetPutKeepsLinks(db: Db, after: Db, c: Connector, r: Resource, machine: nat, now: int)
    requires UniqueAssets(db.assets) && Linked(db) && AssetPut(db, after, c, r, machine, now)
    ensures UniqueAssets(after.assets) && Linked(after)
  {
    PutAsset(db.assets, c, r.external.value, AssetOf(c, r, machine, now));
    forall i | 0 <= i < |after.assets|
      ensures LinkedTo(after.assets[i], after.store.machines)
    {
      if i != AssetIndex(db.assets, c, r.external.value) {
        assert LinkedTo(db.assets[i], db.store.machines);
      }
    }
  }

  lemma AssetStep(was: seq<Asset>, db: Db, after: Db, c: Connector, resources: seq<Resource>, r: Resource,
                  machine: nat, now: int)
    requires UniqueAssets(db.assets) && AssetsAgree(was, db, c, resources, now)
    requires AssetPut(db, after, c, r, machine, now)
    ensures AssetsAgree(was, after, c, resources + [r], now)
  {
    assert (resources + [r])[..|resources + [r]| - 1] == resources;
    PutAsset(db.assets, c, r.external.value, AssetOf(c, r, machine, now));
  }

  // ----- All resources -----

  /** One more resource makes the loop raise exactly when it is malformed. */
  lemma OneMoreRaises(done: Option<(Db, nat)>, c: Connector, at: string, r: Resource, now: int)
    ensures Then(done, c, at, r, now).None? <==> done.None? || Malformed(c, at, r)
  {
    if done.Some? {
      ReconciledRows(done.value.0, c, at, r, now);
    }
  }

  lemma {:induction false} RaisesExactlyWhenMalformed(db: Db, c: Connector, at: string, resources: seq<Resource>,
                                                      now: int)
    ensures ReconciledAll(db, c, at, resources, now).None? <==> exists r :: r in resources && Malformed(c, at, r)
  {
    if resources != [] {
      var init, last := resources[..|resources| - 1], resources[|resources| - 1];
      assert forall r :: r in resources <==> r in init || r == last by {
        assert resources == init + [last];
      }
      RaisesExactlyWhenMalformed(db, c, at, init, now);
      OneMoreRaises(ReconciledAll(db, c, at, init, now), c, at, last, now);
    }
  }

  /** The turn of the loop for the resource makes the second state of the first. */
  predicate Turns(before: Db, after: Db, c: Connector, at: string, r: Resource, now: int) {
    var turn := Reconciled(before, c, at, r, now);
    turn.Some? && turn.value.0 == after
  }

  /** A loop that succeeded got through all resources but the last, and then through the last. */
  lemma LastTurns(db: Db, c: Connector, at: string, resources: seq<Resource>, now: int) returns (before: Db, after: Db)
    requires resources != [] && ReconciledAll(db, c, at, resources, now).Some?
    ensures after == ReconciledAll(db, c, at, resources, now).value.0
    ensures ReconciledAll(db, c, at, resources[..|resources| - 1], now).Some?
    ensures before == ReconciledAll(db, c, at, resources[..|resources| - 1], now).value.0
    ensures Turns(before, after, c, at, resources[|resources| - 1], now)
  {
    before := ReconciledAll(db, c, at, resources[..|resources| - 1], now).value.0;
    after := ReconciledAll(db, c, at, resources, now).value.0;
  }

  ghost predicate Agrees(db: Db, r: Db, c: Connector, resources: seq<Resource>, now: int) {
    && Sound(r)
    && MachinesAgree(db.store.machines, r.store.machines, c, resources, now)
    && AssetsAgree(db.assets, r, c, resources, now)
    && (forall x :: Latest(resources, x).Some? ==> HasAsset(r.assets, c, x))
    && r.offline == db.offline
  }

  lemma AgreementStep(db: Db, before: Db, after: Db, c: Connector, at: string, resources: seq<Resource>, r: Resource,
                      now: int)
    requires Agrees(db, before, c, resources, now) && Turns(before, after, c, at, r, now)
    ensures Agrees(db, after, c, resources + [r], now)
  {
    ReconciledRows(before, c, at, r, now);
    var external := r.external.value;
    var machine := MachineIndex(before.store.machines, c, external);
    MachineIndexFinds(before.store.machines, c, external);
    MachineStep(db.store.machines, before.store.machines, c, resources, r, now);
    AssetPutKeepsLinks(before, after, c, r, machine, now);
    AssetStep(db.assets, before, after, c, resources, r, machine, now);
    forall x
      ensures HasAsset(after.assets, c, x) <==> HasAsset(before.assets, c, x) || x == external
    {
      PutHasAsset(before.assets, c, external, AssetOf(c, r, machine, now), x);
    }
    Ingest.InsertAllStoresOnce(before.store.table, Rows(c, at, r, machine));
    assert (resources + [r])[..|resources + [r]| - 1] == resources;
  }

  lemma {:induction false} ResourcesAgree(db: Db, c: Connector, at: string, resources: seq<Resource>, now: int)
    requires Sound(db) && ReconciledAll(db, c, at, resources, now).Some?
    ensures Agrees(db, ReconciledAll(db, c, at, resources, now).value.0, c, resources, now)
  {
    if resources != [] {
      var init, last := resources[..|resources| - 1], resources[|resources| - 1];
      assert init + [last] == resources;
      var before, after := LastTurns(db, c, at, resources, now);
      ResourcesAgree(db, c, at, init, now);
      AgreementStep(db, before, after, c, at, init, last, now);
    }
  }

  lemma {:induction false} SeenIsListed(resources: seq<Resource>, external: string)
    ensures external in Seen(resources) <==> Latest(resources, external).Some?
  {
    if resources != [] {
      var init := resources[..|resources| - 1];
      SeenIsListed(init, external);
      assert forall i :: 0 <= i < |init| ==> init[i] == resources[i];
    }
  }

  // ----- Retirement -----

  /** A stale asset among the first n is linked to the machine. */
  predicate Abandons(db: Db, c: Connector, seen: set<string>, n: nat, machine: nat)
    requires n <= |db.assets|
  {
    exists i :: 0 <= i < n && IsStale(db.assets[i], c, seen) && db.assets[i].machine == Some(machine)
  }

  ghost predicate RetiredRows(db: Db, r: Db, c: Connector, seen: set<string>, n: nat)
    requires n <= |db.assets|
  {
    && |r.assets| == |db.assets| && |r.store.machines| == |db.store.machines|
    && r.store.table == db.store.table
    && (forall i :: 0 <= i < |r.assets| ==>
          r.assets[i] == if i < n && IsStale(db.assets[i], c, seen) then db.assets[i].(state := "UNAVAILABLE")
              else db.assets[i])
    && (forall m: nat :: m < |r.store.machines| ==>
          r.store.machines[m] == if Abandons(db, c, seen, n, m) then db.store.machines[m].(power := Ingest.Offline)
                                 else db.store.machines[m])
  }

  lemma {:induction false} RetirementRows(db: Db, c: Connector, seen: set<string>, n: nat)
    requires n <= |db.assets|
    ensures RetiredRows(db, Retired(db, c, seen, n), c, seen, n)
  {
    if n > 0 {
      RetirementRows(db, c, seen, n - 1);
      var a := db.assets[n - 1];
      forall m: nat
        ensures Abandons(db, c, seen, n, m)
           <==> Abandons(db, c, seen, n - 1, m) || (IsStale(a, c, seen) && a.machine == Some(m))
      {
      }
    }
  }

  /** The offline events a retirement publishes. */
  function Events(db: Db, c: Connector, seen: set<string>, n: nat): seq<Gone>
    requires n <= |db.assets|
  {
    if n == 0 then []
    else
      var a := db.assets[n - 1];
      Events(db, c, seen, n - 1)
      + if IsStale(a, c, seen) && GoesOffline(a, db.store.machines)
        then [Gone(a.machine.value, db.store.machines[a.machine.value].hostname)] else []
  }

  lemma {:induction false} RetirementPublishes(db: Db, c: Connector, seen: set<string>, n: nat)
    requires n <= |db.assets|
    ensures Retired(db, c, seen, n).offline == db.offline + Events(db, c, seen, n)
  {
    if n > 0 {
      RetirementPublishes(db, c, seen, n - 1);
      RetirementRows(db, c, seen, n - 1);
    }
  }

  /** A machine is reported exactly when the retirement turns it offline. */
  lemma {:induction false} EventsAreTransitions(db: Db, c: Connector, seen: set<string>, n: nat, machine: nat)
    requires n <= |db.assets| && machine < |db.store.machines|
    ensures (exists g :: g in Events(db, c, seen, n) && g.machine == machine)
       <==> !db.store.machines[machine].power.Offline? && Abandons(db, c, seen, n, machine)
  {
    if n > 0 {
      EventsAreTransitions(db, c, seen, n - 1, machine);
      var a, before, after := db.assets[n - 1], Events(db, c, seen, n - 1), Events(db, c, seen, n);
      if g :| g in before && g.machine == machine {
        assert g in after;
      }
      if IsStale(a, c, seen) && a.machine == Some(machine) && GoesOffline(a, db.store.machines) {
        assert after[|before|].machine == machine;
      }
    }
  }

  /** And never twice. */
  lemma {:induction false} NoMachineIsReportedTwice(db: Db, c: Connector, seen: set<string>, n: nat)
    requires n <= |db.assets| && Linked(db) && UniqueAssets(db.assets)
    ensures forall i, j :: 0 <= i < j < |Events(db, c, seen, n)| ==>
              Events(db, c, seen, n)[i].machine != Events(db, c, seen, n)[j].machine
    ensures forall g :: g in Events(db, c, seen, n) ==>
              exists k :: 0 <= k < n && db.assets[k].machine == Some(g.machine) && db.assets[k].connector == c.id
  {
    if n > 0 {
      NoMachineIsReportedTwice(db, c, seen, n - 1);
      var a, before, after := db.assets[n - 1], Events(db, c, seen, n - 1), Events(db, c, seen, n);
      if after != before {
        forall i | 0 <= i < |before|
          ensures before[i].machine != a.machine.value
        {
          assert before[i] in before;
          var k :| 0 <= k < n - 1 && db.assets[k].machine == Some(before[i].machine) && db.assets[k].connector == c.id;
          assert !SameAsset(db.assets[k], a);
          assert LinkedTo(db.assets[k], db.store.machines) && LinkedTo(a, db.store.machines);
        }
      }
    }
  }

  // ----- The payload is mirrored -----

  /** What a successful run did: all resources, then the retirement. */
  function Collected(db: Db, c: Connector, p: Payload, now: int): Db
    requires Persisted(db, c, p, now).1.Some?
  {
    ReconciledAll(db, c, p.collectedAt, Resources(p), now).value.0
  }

  /** A machine that a stale asset abandons belongs to the connector and is not listed. */
  lemma AbandonedIsOurs(db: Db, c: Connector, seen: set<string>, machine: nat)
    requires Linked(db) && machine < |db.store.machines|
    ensures Abandons(db, c, seen, |db.assets|, machine) ==>
              db.store.machines[machine].connector == Some(c.id) && db.store.machines[machine].external !in seen
  {
    if Abandons(db, c, seen, |db.assets|, machine) {
      var k :| 0 <= k < |db.assets| && IsStale(db.assets[k], c, seen) && db.assets[k].machine == Some(machine);
      assert LinkedTo(db.assets[k], db.store.machines);
    }
  }

  lemma RetirementKeepsSound(db: Db, r: Db, c: Connector, seen: set<string>, n: nat)
    requires Sound(db) && n <= |db.assets| && RetiredRows(db, r, c, seen, n)
    ensures Sound(r)
  {
    assert forall m :: 0 <= m < |r.store.machines| ==> SameMachine(r.store.machines[m], db.store.machines[m]);
    forall i | 0 <= i < |r.assets|
      ensures LinkedTo(r.assets[i], r.store.machines)
    {
      assert LinkedTo(db.assets[i], db.store.machines);
    }
  }

  /** The constraints hold after every run, so the next run can rely on them. */
  lemma PersistingKeepsSound(db: Db, c: Connector, p: Payload, now: int)
    requires Sound(db)
    ensures Sound(Persisted(db, c, p, now).0)
  {
    if Persisted(db, c, p, now).1.Some? {
      var done, seen := Collected(db, c, p, now), Seen(Resources(p));
      ResourcesAgree(db, c, p.collectedAt, Resources(p), now);
      RetirementRows(done, c, seen, |done.assets|);
      RetirementKeepsSound(done, Retired(done, c, seen, |done.assets|), c, seen, |done.assets|);
    }
  }

  /**
   * An asset and its machine show the last occurrence, the machine's power fits the state; a missing one is
   * unavailable.
   */
  predicate Mirrors(db: Db, r: Db, i: nat, c: Connector, resources: seq<Resource>, now: int)
    requires i < |r.assets|
  {
    var a := r.assets[i];
    match Latest(resources, a.external)
    case Some(latest) =>
      && a.machine.Some? && a.machine.value < |r.store.machines|
      && ShowsAsset(a, c, latest, now) && ShowsMachine(r.store.machines[a.machine.value], c, latest, now)
    case None =>
      && i < |db.assets| && a == db.assets[i].(state := "UNAVAILABLE")
      && (a.machine.Some? ==> a.machine.value < |r.store.machines| && r.store.machines[a.machine.value].power.Offline?)
  }

  lemma AssetMirrors(db: Db, c: Connector, p: Payload, now: int, i: nat)
    requires Sound(db) && Persisted(db, c, p, now).1.Some?
    requires i < |Persisted(db, c, p, now).0.assets| && Persisted(db, c, p, now).0.assets[i].connector == c.id
    ensures Mirrors(db, Persisted(db, c, p, now).0, i, c, Resources(p), now)
  {
    var resources, done, r := Resources(p), Collected(db, c, p, now), Persisted(db, c, p, now).0;
    ResourcesAgree(db, c, p.collectedAt, resources, now);
    RetirementRows(done, c, Seen(resources), |done.assets|);
    var a := done.assets[i];
    SeenIsListed(resources, a.external);
    assert LinkedTo(a, done.store.machines);
    if a.machine.Some? {
      var m := a.machine.value;
      if ListedAsset(a, c, resources) {
        assert CarriesLatest(a, done.store.machines, c, resources, now);
        assert ListedMachine(done.store.machines[m], c, resources);
        AbandonedIsOurs(done, c, Seen(resources), m);
        RowsShowTheResource(c, Latest(resources, a.external).value, m, now);
      } else {
        assert IsStale(a, c, Seen(resources));
        assert Abandons(done, c, Seen(resources), |done.assets|, m);
      }
    }
  }

  /** After a run the connector's assets are exactly the payload's and the missing ones, each as it should be. */
  lemma AssetsMirrorThePayload(db: Db, c: Connector, p: Payload, now: int)
    requires Sound(db) && Persisted(db, c, p, now).1.Some?
    ensures var r := Persisted(db, c, p, now).0;
            && (forall i :: 0 <= i < |r.assets| && r.assets[i].connector == c.id ==>
                 Mirrors(db, r, i, c, p.hosts + p.vms + p.datastores, now))
            && (forall x :: x in Seen(p.hosts + p.vms + p.datastores) ==> HasAsset(r.assets, c, x))
  {
    var resources, done, r := Resources(p), Collected(db, c, p, now), Persisted(db, c, p, now).0;
    forall i | 0 <= i < |r.assets| && r.assets[i].connector == c.id
      ensures Mirrors(db, r, i, c, resources, now)
    {
      AssetMirrors(db, c, p, now, i);
    }
    ResourcesAgree(db, c, p.collectedAt, resources, now);
    RetirementRows(done, c, Seen(resources), |done.assets|);
    forall x | x in Seen(resources)
      ensures HasAsset(r.assets, c, x)
    {
      SeenIsListed(resources, x);
      var i :| 0 <= i < |done.assets| && IsAsset(done.assets[i], c, x);
      assert IsAsset(r.assets[i], c, x);
    }
  }

  /** Rows of other connectors, and of agents, are not touched, and none are made for them. */
  lemma OthersAreUntouched(db: Db, c: Connector, p: Payload, now: int)
    requires Sound(db)
    ensures var r := Persisted(db, c, p, now).0;
            && (forall i :: 0 <= i < |r.assets| && r.assets[i].connector != c.id ==>
                 i < |db.assets| && r.assets[i] == db.assets[i])
            && (forall m :: 0 <= m < |r.store.machines| && r.store.machines[m].connector != Some(c.id) ==>
                  m < |db.store.machines| && r.store.machines[m] == db.store.machines[m])
  {
    if Persisted(db, c, p, now).1.Some? {
      var resources, done, r := Resources(p), Collected(db, c, p, now), Persisted(db, c, p, now).0;
      ResourcesAgree(db, c, p.collectedAt, resources, now);
      RetirementRows(done, c, Seen(resources), |done.assets|);
      forall m: nat | m < |r.store.machines| && r.store.machines[m].connector != Some(c.id)
        ensures m < |db.store.machines| && r.store.machines[m] == db.store.machines[m]
      {
        assert !ListedMachine(done.store.machines[m], c, resources);
        AbandonedIsOurs(done, c, Seen(resources), m);
      }
    }
  }

  /** One offline event for each machine a missing asset takes offline, and no other. */
  lemma OfflineEventsAreTransitions(db: Db, c: Connector, p: Payload, now: int)
    requires Sound(db) && Persisted(db, c, p, now).1.Some?
    ensures var done, r := Collected(db, c, p, now), Persisted(db, c, p, now).0;
            && db.offline <= r.offline && |done.store.machines| == |r.store.machines|
            && (forall m: nat :: m < |r.store.machines| ==>
                  ((exists g :: g in r.offline[|db.offline|..] && g.machine == m)
                   <==> !done.store.machines[m].power.Offline? && r.store.machines[m].power.Offline?))
            && (forall i, j :: |db.offline| <= i < j < |r.offline| ==> r.offline[i].machine != r.offline[j].machine)
  {
    var resources, done, r := Resources(p), Collected(db, c, p, now), Persisted(db, c, p, now).0;
    var seen := Seen(resources);
    var events := Events(done, c, seen, |done.assets|);
    ResourcesAgree(db, c, p.collectedAt, resources, now);
    RetirementRows(done, c, seen, |done.assets|);
    RetirementPublishes(done, c, seen, |done.assets|);
    NoMachineIsReportedTwice(done, c, seen, |done.assets|);
    assert r.offline == db.offline + events && r.offline[|db.offline|..] == events;
    forall m: nat | m < |r.store.machines|
      ensures (exists g :: g in events && g.machine == m)
         <==> !done.store.machines[m].power.Offline? && r.store.machines[m].power.Offline?
    {
      EventsAreTransitions(done, c, seen, |done.assets|, m);
    }
  }

  /**
   * A run succeeds exactly when every resource names itself and its metrics normalise; otherwise nothing is
   * written.
   */
  lemma AllOrNothing(db: Db, c: Connector, p: Payload, now: int)
    ensures Persisted(db, c, p, now).1.Some? <==>
              forall r :: r in p.hosts + p.vms + p.datastores ==> !HasDefect(p.collectedAt, r)
    ensures Persisted(db, c, p, now).1.None? ==> Persisted(db, c, p, now).0 == db
  {
    RaisesExactlyWhenMalformed(db, c, p.collectedAt, Resources(p), now);
    forall r
      ensures Malformed(c, p.collectedAt, r) <==> HasDefect(p.collectedAt, r)
    {
      MalformedExactlyByADefect(c, p.collectedAt, r);
    }
  }

  /** The resource has no identifier, more than 5000 metrics, or a metric that is refused. */
  predicate HasDefect(at: string, r: Resource) {
    || r.external.None? || |r.metrics| > 5000
    || exists j :: 0 <= j < |r.metrics| && IsRefused(r.external.value, at, j, r.metrics[j])
  }

  lemma MalformedExactlyByADefect(c: Connector, at: string, r: Resource)
    ensures Malformed(c, at, r) <==> HasDefect(at, r)
  {
    if r.external.Some? && |r.metrics| <= 5000 {
      var items := KeyedItems(c, r.external.value, at, r.metrics);
      forall j | 0 <= j < |r.metrics|
        ensures items[j].Valid? <==> !IsRefused(r.external.value, at, j, r.metrics[j])
      {
        ItemShowsTheMetric(c, r.external.value, at, j, r.metrics[j]);
      }
    }
  }

  // ----- Running twice -----

  predicate SameRow(a: Asset, b: Asset) {
    a.(lastSeen := b.lastSeen) == b
  }

  predicate SameHost(a: Ingest.Machine, b: Ingest.Machine) {
    a.(lastSeen := b.lastSeen) == b
  }

  /** What the first run left: listed rows carry the latest resource, missing ones are retired. */
  ghost predicate Settled(db: Db, c: Connector, resources: seq<Resource>, t: int) {
    && Sound(db)
    && (forall x :: Latest(resources, x).Some? ==> HasAsset(db.assets, c, x))
    && (forall i :: 0 <= i < |db.assets| && ListedAsset(db.assets[i], c, resources) ==>
          CarriesLatest(db.assets[i], db.store.machines, c, resources, t))
    && (forall i :: 0 <= i < |db.assets| && IsStale(db.assets[i], c, Seen(resources)) ==>
         IsRetired(db.assets[i], db.store.machines))
    && (forall m :: 0 <= m < |db.store.machines| && ListedMachine(db.store.machines[m], c, resources) ==>
          db.store.machines[m] == MachineOf(c, Latest(resources, db.store.machines[m].external).value, t))
  }

  predicate IsRetired(a: Asset, machines: seq<Ingest.Machine>) {
    && a.state == "UNAVAILABLE"
    && (a.machine.Some? ==> a.machine.value < |machines| && machines[a.machine.value].power.Offline?)
  }

  /** A second collection of the payload makes no rows. */
  lemma SecondAssetIsOld(first: Db, second: Db, c: Connector, resources: seq<Resource>, t: int, u: int, i: nat)
    requires Settled(first, c, resources, t) && Agrees(first, second, c, resources, u) && i < |second.assets|
    ensures i < |first.assets|
  {
    var a := second.assets[i];
    if ListedAsset(a, c, resources) {
      var k :| 0 <= k < |first.assets| && IsAsset(first.assets[k], c, a.external);
      assert SameAsset(second.assets[k], a);
    }
  }

  lemma SecondMachineIsOld(first: Db, second: Db, c: Connector, resources: seq<Resource>, t: int, u: int, i: nat)
    requires Settled(first, c, resources, t) && Agrees(first, second, c, resources, u) && i < |second.store.machines|
    ensures i < |first.store.machines|
  {
    var m := second.store.machines[i];
    if ListedMachine(m, c, resources) {
      var k :| 0 <= k < |first.assets| && IsAsset(first.assets[k], c, m.external);
      assert CarriesLatest(first.assets[k], first.store.machines, c, resources, t);
      assert SameMachine(second.store.machines[first.assets[k].machine.value], m);
    }
  }

  lemma RunSettles(db: Db, c: Connector, p: Payload, now: int)
    requires Sound(db) && Persisted(db, c, p, now).1.Some?
    ensures Settled(Persisted(db, c, p, now).0, c, Resources(p), now)
  {
    var resources, done, r := Resources(p), Collected(db, c, p, now), Persisted(db, c, p, now).0;
    ResourcesAgree(db, c, p.collectedAt, resources, now);
    RetirementRows(done, c, Seen(resources), |done.assets|);
    PersistingKeepsSound(db, c, p, now);
    forall m: nat | m < |done.store.machines| && ListedMachine(done.store.machines[m], c, resources)
      ensures r.store.machines[m] == done.store.machines[m]
    {
      SeenIsListed(resources, done.store.machines[m].external);
      AbandonedIsOurs(done, c, Seen(resources), m);
    }
    forall i | 0 <= i < |done.assets|
      ensures ListedAsset(r.assets[i], c, resources) ==> CarriesLatest(r.assets[i], r.store.machines, c, resources, now)
      ensures IsStale(r.assets[i], c, Seen(resources)) ==> IsRetired(r.assets[i], r.store.machines)
    {
      var a := done.assets[i];
      SeenIsListed(resources, a.external);
      assert LinkedTo(a, done.store.machines);
      if IsStale(a, c, Seen(resources)) && a.machine.Some? {
        assert Abandons(done, c, Seen(resources), |done.assets|, a.machine.value);
      }
    }
    AssetsMirrorThePayload(db, c, p, now);
    forall x | Latest(resources, x).Some?
      ensures HasAsset(r.assets, c, x)
    {
      SeenIsListed(resources, x);
    }
  }

  lemma SecondCollectionKeepsRows(first: Db, second: Db, c: Connector, resources: seq<Resource>, t: int, u: int)
    requires Settled(first, c, resources, t) && Agrees(first, second, c, resources, u)
    ensures |second.assets| == |first.assets| && |second.store.machines| == |first.store.machines|
    ensures forall i :: 0 <= i < |first.assets| ==> SameRow(second.assets[i], first.assets[i])
    ensures forall m :: 0 <= m < |first.store.machines| ==> SameHost(second.store.machines[m], first.store.machines[m])
  {
    if second.assets != [] {
      SecondAssetIsOld(first, second, c, resources, t, u, |second.assets| - 1);
    }
    if second.store.machines != [] {
      SecondMachineIsOld(first, second, c, resources, t, u, |second.store.machines| - 1);
    }
    forall i | 0 <= i < |first.assets|
      ensures SameRow(second.assets[i], first.assets[i])
    {
      var a, b := first.assets[i], second.assets[i];
      if ListedAsset(a, c, resources) {
        var m, n := a.machine.value, b.machine.value;
        assert SameMachine(second.store.machines[m], second.store.machines[n]);
      }
    }
  }

  /** The second retirement changes nothing and reports nothing. */
  lemma {:induction false} NothingLeftToRetire(db: Db, c: Connector, seen: set<string>, n: nat)
    requires n <= |db.assets|
    requires forall i :: 0 <= i < |db.assets| && IsStale(db.assets[i], c, seen) ==>
               IsRetired(db.assets[i], db.store.machines)
    ensures Retired(db, c, seen, n) == db
  {
    if n > 0 {
      NothingLeftToRetire(db, c, seen, n - 1);
      var a := db.assets[n - 1];
      if IsStale(a, c, seen) {
        assert IsRetired(a, db.store.machines);
        assert db.assets[n - 1 := a] == db.assets && a.(state := "UNAVAILABLE") == a;
      }
    }
  }

  /** A second run on the same payload succeeds, moves only last_seen, and reports no machine offline. */
  lemma SecondRunChangesNoState(db: Db, c: Connector, p: Payload, t: int, u: int)
    requires Sound(db) && Persisted(db, c, p, t).1.Some?
    ensures var r := Persisted(db, c, p, t).0;
            var (again, counts) := Persisted(r, c, p, u);
            && counts.Some? && again.offline == r.offline
            && |again.assets| == |r.assets| && |again.store.machines| == |r.store.machines|
            && (forall i :: 0 <= i < |r.assets| ==> SameRow(again.assets[i], r.assets[i]))
            && (forall m :: 0 <= m < |r.store.machines| ==> SameHost(again.store.machines[m], r.store.machines[m]))
  {
    var resources, r := Resources(p), Persisted(db, c, p, t).0;
    RunSettles(db, c, p, t);
    AllOrNothing(db, c, p, t);
    AllOrNothing(r, c, p, u);
    var done := Collected(r, c, p, u);
    ResourcesAgree(r, c, p.collectedAt, resources, u);
    SecondCollectionKeepsRows(r, done, c, resources, t, u);
    NothingLeftToRetire(done, c, Seen(resources), |done.assets|);
  }

  // ----- Metrics -----

  predicate Keyed(r: Resource) {
    forall j :: 0 <= j < |r.metrics| ==> r.metrics[j].key != Empty
  }

  lemma RowsHaveKeys(c: Connector, at: string, r: Resource, machine: nat)
    requires !Malformed(c, at, r)
    ensures var rows := Rows(c, at, r, machine);
            |rows| == |r.metrics| && forall j :: 0 <= j < |rows| ==>
              rows[j].customer == c.customer && rows[j].key == Rows(c, at, r, 0)[j].key &&
                  (rows[j].key.Some? <==> r.metrics[j].key != Empty)
  {
    if r.metrics != [] {
      var items := KeyedItems(c, r.external.value, at, r.metrics);
      forall j | 0 <= j < |items|
        ensures items[j].Valid? && (items[j].key.Some? <==> r.metrics[j].key != Empty)
      {
        assert items[j] == KeyedItem(c, r.external.value, at, j, r.metrics[j]);
      }
    }
  }

  /** Every keyed metric of the resource is stored for the customer. */
  ghost predicate HoldsKeys(table: seq<Ingest.Row>, c: Connector, at: string, r: Resource) {
    !Malformed(c, at, r) ==>
      forall j :: 0 <= j < |Rows(c, at, r, 0)| && Rows(c, at, r, 0)[j].key.Some? ==>
        Ingest.Taken(table, c.customer, Rows(c, at, r, 0)[j].key.value)
  }

  lemma PrefixHoldsKeys(table: seq<Ingest.Row>, more: seq<Ingest.Row>, c: Connector, at: string, r: Resource)
    requires HoldsKeys(table, c, at, r) && table <= more
    ensures HoldsKeys(more, c, at, r)
  {
    forall key | Ingest.Taken(table, c.customer, key)
      ensures Ingest.Taken(more, c.customer, key)
    {
      var i :| 0 <= i < |table| && table[i].customer == c.customer && table[i].key == Some(key);
      assert more[i] == table[i];
    }
  }

  lemma ResourceStoresKeys(table: seq<Ingest.Row>, c: Connector, at: string, r: Resource, machine: nat)
    requires Ingest.UniqueKeys(table) && !Malformed(c, at, r)
    ensures var after := Ingest.InsertAll(table, Rows(c, at, r, machine));
            && Ingest.UniqueKeys(after) && table <= after && HoldsKeys(after, c, at, r)
            && (HoldsKeys(table, c, at, r) && Keyed(r) ==> after == table)
            && (!Keyed(r) ==> |after| > |table|)
  {
    var rows := Rows(c, at, r, machine);
    RowsHaveKeys(c, at, r, machine);
    RowsHaveKeys(c, at, r, 0);
    Ingest.InsertAllStoresOnce(table, rows);
    if Keyed(r) {
      if HoldsKeys(table, c, at, r) {
        Ingest.InsertTakenIsNoOp(table, rows);
      }
    } else {
      var j :| 0 <= j < |r.metrics| && r.metrics[j].key == Empty;
      Ingest.KeylessRowsGrow(table, rows, j);
    }
  }

  /** How the metrics of the resources turned one table into the other. */
  ghost predicate Stores(was: seq<Ingest.Row>, table: seq<Ingest.Row>, c: Connector, at: string,
                         resources: seq<Resource>) {
    && Ingest.UniqueKeys(table) && was <= table
    && (forall r :: r in resources ==> HoldsKeys(table, c, at, r))
    && ((forall r :: r in resources ==> HoldsKeys(was, c, at, r) && Keyed(r)) ==> table == was)
    && ((exists r :: r in resources && !Keyed(r)) ==> |table| > |was|)
  }

  lemma StoresStep(was: seq<Ingest.Row>, table: seq<Ingest.Row>, c: Connector, at: string, resources: seq<Resource>,
                   last: Resource, machine: nat)
    requires Stores(was, table, c, at, resources) && !Malformed(c, at, last)
    ensures Stores(was, Ingest.InsertAll(table, Rows(c, at, last, machine)), c, at, resources + [last])
  {
    var after := Ingest.InsertAll(table, Rows(c, at, last, machine));
    ResourceStoresKeys(table, c, at, last, machine);
    forall r | r in resources
      ensures HoldsKeys(after, c, at, r)
    {
      PrefixHoldsKeys(table, after, c, at, r);
    }
    assert forall r :: r in resources + [last] <==> r in resources || r == last;
  }

  lemma TurnStores(was: seq<Ingest.Row>, before: Db, after: Db, c: Connector, at: string, resources: seq<Resource>,
                   last: Resource, now: int)
    requires Stores(was, before.store.table, c, at, resources) && Turns(before, after, c, at, last, now)
    ensures Stores(was, after.store.table, c, at, resources + [last])
  {
    ReconciledRows(before, c, at, last, now);
    StoresStep(was, before.store.table, c, at, resources, last,
        MachineIndex(before.store.machines, c, last.external.value));
  }

  lemma {:induction false} CollectionStoresKeys(db: Db, c: Connector, at: string, resources: seq<Resource>, now: int)
    requires Ingest.UniqueKeys(db.store.table) && ReconciledAll(db, c, at, resources, now).Some?
    ensures Stores(db.store.table, ReconciledAll(db, c, at, resources, now).value.0.store.table, c, at, resources)
  {
    if resources != [] {
      var init, last := resources[..|resources| - 1], resources[|resources| - 1];
      assert init + [last] == resources;
      var before, after := LastTurns(db, c, at, resources, now);
      CollectionStoresKeys(db, c, at, init, now);
      TurnStores(db.store.table, before, after, c, at, init, last, now);
    }
  }

  /** A second run on the same payload stores no metric exactly when no metric came with an empty key. */
  lemma SecondRunAddsNoMetricExactlyWhenKeyed(db: Db, c: Connector, p: Payload, t: int, u: int)
    requires Sound(db) && Persisted(db, c, p, t).1.Some?
    ensures var r := Persisted(db, c, p, t).0;
            Persisted(r, c, p, u).0.store.table == r.store.table
            <==> forall x :: x in Resources(p) ==> Keyed(x)
  {
    var resources, r := Resources(p), Persisted(db, c, p, t).0;
    var first := Collected(db, c, p, t);
    CollectionStoresKeys(db, c, p.collectedAt, resources, t);
    RetirementRows(first, c, Seen(resources), |first.assets|);
    SecondRunChangesNoState(db, c, p, t, u);
    var second := Collected(r, c, p, u);
    CollectionStoresKeys(r, c, p.collectedAt, resources, u);
    RetirementRows(second, c, Seen(resources), |second.assets|);
  }

  lemma {:induction false} CollectionCountsRows(db: Db, c: Connector, at: string, resources: seq<Resource>, now: int)
    requires ReconciledAll(db, c, at, resources, now).Some?
    ensures var (after, count) := ReconciledAll(db, c, at, resources, now).value;
            |after.store.table| == |db.store.table| + count
  {
    if resources != [] {
      var init, r := resources[..|resources| - 1], resources[|resources| - 1];
      CollectionCountsRows(db, c, at, init, now);
      var before := ReconciledAll(db, c, at, init, now).value.0;
      ReconciledRows(before, c, at, r, now);
      if r.metrics != [] {
        var machine := MachineIndex(before.store.machines, c, r.external.value);
        RowsHaveKeys(c, at, r, machine);
        Ingest.KnownKeysAreTaken(before.store.table, c.customer);
        Ingest.CountIsWhatWasStored(before.store.table, Rows(c, at, r, machine), c.customer,
                                    Ingest.KnownKeys(before.store.table, c.customer));
      }
    }
  }

  /** The reported number of metrics is the number of rows stored; the others are those of the payload. */
  lemma MetricCountIsRowsStored(db: Db, c: Connector, p: Payload, now: int)
    requires Persisted(db, c, p, now).1.Some?
    ensures var (r, counts) := Persisted(db, c, p, now);
            && |r.store.table| == |db.store.table| + counts.value.metrics
            && counts.value.hosts == |p.hosts| && counts.value.vms == |p.vms|
            && counts.value.datastores == |p.datastores|
  {
    var done := Collected(db, c, p, now);
    CollectionCountsRows(db, c, p.collectedAt, Resources(p), now);
    RetirementRows(done, c, Seen(Resources(p)), |done.assets|);
  }
}
