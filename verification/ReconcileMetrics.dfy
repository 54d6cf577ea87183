/**
 * The metrics of a reconciliation: every row that a run adds is a metric of the payload as it was
 * collected, on the machine of its resource, and every metric with a key is stored.
 */
module ReconcileMetrics {
  import opened Common
  import opened Reconcile
  import opened ReconcileSafety
  import Ingest

  /** The row holds metric j of the resource, under the machine made for it. */
  predicate ShowsMetric(row: Ingest.Row, machines: seq<Ingest.Machine>, c: Connector, at: string, r: Resource, j: nat) {
    && r.external.Some? && j < |r.metrics|
    && row.machine < |machines| && IsMachine(machines[row.machine], c, r.external.value)
    && row.customer == c.customer && row.key == KeyFor(c, r.external.value, at, j, r.metrics[j])
    && row.name == r.metrics[j].name && row.value == r.metrics[j].value && row.timestamp == r.metrics[j].timestamp
  }

  predicate ShowsSome(row: Ingest.Row, machines: seq<Ingest.Machine>, c: Connector, at: string,
                      resources: seq<Resource>) {
    exists i, j :: 0 <= i < |resources| && 0 <= j < |resources[i].metrics|
      && ShowsMetric(row, machines, c, at, resources[i], j)
  }

  /** The rows beyond the first n are metrics of the resources. */
  ghost predicate NewRowsShow(db: Db, n: nat, c: Connector, at: string, resources: seq<Resource>) {
    n <= |db.store.table|
    && forall k :: n <= k < |db.store.table| ==> ShowsSome(db.store.table[k], db.store.machines, c, at, resources)
  }

  /** No machine row moves or becomes that of another resource. */
  ghost predicate MachinesStay(before: seq<Ingest.Machine>, after: seq<Ingest.Machine>) {
    |before| <= |after| && forall m :: 0 <= m < |before| ==> SameMachine(before[m], after[m])
  }

  lemma ShowsSomeStays(row: Ingest.Row, before: seq<Ingest.Machine>, after: seq<Ingest.Machine>, c: Connector,
                       at: string, resources: seq<Resource>, more: seq<Resource>)
    requires MachinesStay(before, after) && ShowsSome(row, before, c, at, resources)
    ensures ShowsSome(row, after, c, at, resources + more)
  {
    var i, j :| 0 <= i < |resources| && 0 <= j < |resources[i].metrics|
                && ShowsMetric(row, before, c, at, resources[i], j);
    assert SameMachine(before[row.machine], after[row.machine]);
    assert (resources + more)[i] == resources[i];
    assert ShowsMetric(row, after, c, at, (resources + more)[i], j);
  }

  lemma RowShowsMetric(c: Connector, at: string, r: Resource, machine: nat, machines: seq<Ingest.Machine>, j: nat)
    requires !Malformed(c, at, r) && j < |r.metrics|
    requires machine < |machines| && IsMachine(machines[machine], c, r.external.value)
    ensures |Rows(c, at, r, machine)| == |r.metrics| && ShowsMetric(Rows(c, at, r, machine)[j], machines, c, at, r, j)
  {
    var items := KeyedItems(c, r.external.value, at, r.metrics);
    assert items[j] == KeyedItem(c, r.external.value, at, j, r.metrics[j]);
    ItemShowsTheMetric(c, r.external.value, at, j, r.metrics[j]);
  }

  lemma TurnKeepsMachines(before: Db, after: Db, c: Connector, at: string, r: Resource, now: int)
    requires Turns(before, after, c, at, r, now)
    ensures r.external.Some? && MachinesStay(before.store.machines, after.store.machines)
    ensures var m := MachineIndex(before.store.machines, c, r.external.value);
            m < |after.store.machines| && IsMachine(after.store.machines[m], c, r.external.value)
  {
    ReconciledRows(before, c, at, r, now);
    MachineIndexFinds(before.store.machines, c, r.external.value);
  }

  lemma TurnShows(before: Db, after: Db, n: nat, c: Connector, at: string, resources: seq<Resource>, r: Resource,
                  now: int)
    requires NewRowsShow(before, n, c, at, resources) && Turns(before, after, c, at, r, now)
    ensures NewRowsShow(after, n, c, at, resources + [r])
  {
    ReconciledRows(before, c, at, r, now);
    TurnKeepsMachines(before, after, c, at, r, now);
    var machine := MachineIndex(before.store.machines, c, r.external.value);
    var table, rows := before.store.table, Rows(c, at, r, machine);
    forall k | n <= k < |after.store.table|
      ensures ShowsSome(after.store.table[k], after.store.machines, c, at, resources + [r])
    {
      if k < |table| {
        assert after.store.table[..|table|][k] == table[k];
        ShowsSomeStays(table[k], before.store.machines, after.store.machines, c, at, resources, [r]);
      } else {
        Ingest.InsertAllInvents(table, rows, k);
        var j :| 0 <= j < |rows| && rows[j] == after.store.table[k];
        RowShowsMetric(c, at, r, machine, after.store.machines, j);
        assert ShowsMetric(rows[j], after.store.machines, c, at, (resources + [r])[|resources|], j);
      }
    }
  }

  lemma {:induction false} CollectionShows(db: Db, c: Connector, at: string, resources: seq<Resource>, now: int)
    requires ReconciledAll(db, c, at, resources, now).Some?
    ensures NewRowsShow(ReconciledAll(db, c, at, resources, now).value.0, |db.store.table|, c, at, resources)
  {
    if resources != [] {
      var init, last := resources[..|resources| - 1], resources[|resources| - 1];
      assert init + [last] == resources;
      var before, after := LastTurns(db, c, at, resources, now);
      CollectionShows(db, c, at, init, now);
      TurnShows(before, after, |db.store.table|, c, at, init, last, now);
    }
  }

  /** After a run every metric with a key is stored for the customer, and every added row shows a collected metric. */
  lemma MetricsAreStoredAsCollected(db: Db, c: Connector, p: Payload, now: int)
    requires Sound(db) && Persisted(db, c, p, now).1.Some?
    ensures var r := Persisted(db, c, p, now).0;
            && db.store.table <= r.store.table && Ingest.UniqueKeys(r.store.table)
            && NewRowsShow(r, |db.store.table|, c, p.collectedAt, Resources(p))
            && forall x, j :: x in Resources(p) && 0 <= j < |x.metrics| ==>
                 && x.external.Some?
                 && var key := KeyFor(c, x.external.value, p.collectedAt, j, x.metrics[j]);
                    key.Some? ==> Ingest.Taken(r.store.table, c.customer, key.value)
  {
    var at, resources := p.collectedAt, Resources(p);
    var done, r := Collected(db, c, p, now), Persisted(db, c, p, now).0;
    CollectionShows(db, c, at, resources, now);
    CollectionStoresKeys(db, c, at, resources, now);
    RetirementRows(done, c, Seen(resources), |done.assets|);
    RetirementKeepsShowing(done, r, |db.store.table|, c, at, resources);
    RaisesExactlyWhenMalformed(db, c, at, resources, now);
    forall x, j | x in resources && 0 <= j < |x.metrics|
      ensures x.external.Some?
      ensures var key := KeyFor(c, x.external.value, at, j, x.metrics[j]);
              key.Some? ==> Ingest.Taken(r.store.table, c.customer, key.value)
    {
      assert !Malformed(c, at, x) && HoldsKeys(done.store.table, c, at, x);
      RowHasKey(c, at, x, j);
    }
  }

  lemma RowHasKey(c: Connector, at: string, r: Resource, j: nat)
    requires !Malformed(c, at, r) && j < |r.metrics|
    ensures j < |Rows(c, at, r, 0)| && Rows(c, at, r, 0)[j].key == KeyFor(c, r.external.value, at, j, r.metrics[j])
  {
    var items := KeyedItems(c, r.external.value, at, r.metrics);
    assert items[j] == KeyedItem(c, r.external.value, at, j, r.metrics[j]);
    ItemShowsTheMetric(c, r.external.value, at, j, r.metrics[j]);
  }

  lemma RetirementKeepsShowing(done: Db, r: Db, n: nat, c: Connector, at: string, resources: seq<Resource>)
    requires NewRowsShow(done, n, c, at, resources) && r.store.table == done.store.table
    requires MachinesStay(done.store.machines, r.store.machines)
    ensures NewRowsShow(r, n, c, at, resources)
  {
    assert resources + [] == resources;
    forall k | n <= k < |r.store.table|
      ensures ShowsSome(r.store.table[k], r.store.machines, c, at, resources)
    {
      ShowsSomeStays(r.store.table[k], done.store.machines, r.store.machines, c, at, resources, []);
    }
  }
}
