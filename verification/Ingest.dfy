/**
 * Metric ingestion: a batch is stored at most once, key by key, whatever was stored before
 * and whatever a concurrent transaction stores meanwhile.
 */
module Ingest {
  import opened Common

  /** Injective identifiers: agents draw a UUID per metric, connectors name the place of a metric in a payload. */
  datatype MetricKey =
    | Uuid(n: nat)
    | Place(connector: nat, resource: string, collectedAt: string, index: nat)
    | Text(text: string)

  /** A raw metric; one that cannot be normalised is Invalid. */
  datatype Item = Valid(key: Option<MetricKey>, name: string, value: Option<real>, timestamp: int) | Invalid

  datatype Row = Row(
    customer: nat,
    machine: nat,
    key: Option<MetricKey>,
    name: string,
    value: Option<real>,
    timestamp: int)

  datatype Power = Online | Offline | Unknown

  /** A machine row; connector is the connector part of its external id, agents have none. */
  datatype Machine = Machine(
    customer: nat,
    source: string,
    connector: Option<nat>,
    external: string,
    hostname: string,
    power: Power,
    lastSeen: Option<int>)

  datatype Update = Update(machine: nat, name: string, value: Option<real>, accepted: nat)

  datatype Db = Db(table: seq<Row>, machines: seq<Machine>, updates: seq<Update>)

  datatype Outcome = Accepted(count: nat) | Rejected

  /** normalize_batch takes the items. */
  predicate Normalizes(items: seq<Item>) {
    0 < |items| <= 5000 && forall i :: 0 <= i < |items| ==> items[i].Valid?
  }

  function RowOf(customer: nat, machine: nat, item: Item): Row
    requires item.Valid?
  {
    Row(customer, machine, item.key, item.name, item.value, item.timestamp)
  }

  function RowsOf(customer: nat, machine: nat, items: seq<Item>): (r: seq<Row>)
    requires forall i :: 0 <= i < |items| ==> items[i].Valid?
    ensures |r| == |items| && forall i :: 0 <= i < |r| ==> r[i] == RowOf(customer, machine, items[i])
  {
    seq(|items|, i requires 0 <= i < |items| => RowOf(customer, machine, items[i]))
  }

  /** The customer already has a metric with the key. */
  predicate Taken(table: seq<Row>, customer: nat, key: MetricKey) {
    exists i :: 0 <= i < |table| && table[i].customer == customer && table[i].key == Some(key)
  }

  /** The constraint uniq_metric_customer_idempotency. */
  ghost predicate UniqueKeys(table: seq<Row>) {
    forall i, j :: 0 <= i < j < |table| && table[i].key.Some? ==>
      !(table[i].customer == table[j].customer && table[i].key == table[j].key)
  }

  /** Inserting one row, ignoring a conflict with the constraint. */
  function Insert(table: seq<Row>, row: Row): seq<Row> {
    if row.key.Some? && Taken(table, row.customer, row.key.value) then table else table + [row]
  }

  function InsertAll(table: seq<Row>, rows: seq<Row>): (r: seq<Row>)
    ensures |table| <= |r| && r[..|table|] == table
  {
    if rows == [] then table
    else
      var before := InsertAll(table, rows[..|rows| - 1]);
      var r := Insert(before, rows[|rows| - 1]);
      assert r[..|table|] == before[..|table|];
      r
  }

  /** Nothing is stored twice, nothing is invented, and every key ends up stored. */
  lemma {:induction false} InsertAllStoresOnce(table: seq<Row>, rows: seq<Row>)
    requires UniqueKeys(table)
    ensures UniqueKeys(InsertAll(table, rows))
    ensures forall row :: row in InsertAll(table, rows) ==> row in table || row in rows
    ensures forall i :: 0 <= i < |rows| ==>
              if rows[i].key.Some? then Taken(InsertAll(table, rows), rows[i].customer, rows[i].key.value)
              else rows[i] in InsertAll(table, rows)
  {
    if rows != [] {
      var init, last := rows[..|rows| - 1], rows[|rows| - 1];
      InsertAllStoresOnce(table, init);
      var before, after := InsertAll(table, init), InsertAll(table, rows);
      assert rows == init + [last];
      assert forall i :: 0 <= i < |before| ==> after[i] == before[i];
      forall i | 0 <= i < |rows|
        ensures if rows[i].key.Some? then Taken(after, rows[i].customer, rows[i].key.value) else rows[i] in after
      {
        if i < |init| {
          assert rows[i] == init[i];
          if rows[i].key.None? {
            var k :| 0 <= k < |before| && before[k] == rows[i];
            assert after[k] == rows[i];
          }
        } else if after != before {
          assert after[|before|] == last;
        }
      }
    }
  }

  lemma {:induction false} InsertAllConcat(table: seq<Row>, a: seq<Row>, b: seq<Row>)
    ensures InsertAll(table, a + b) == InsertAll(InsertAll(table, a), b)
  {
    if b == [] {
      assert a + b == a;
    } else {
      assert (a + b)[..|a + b| - 1] == a + b[..|b| - 1];
      InsertAllConcat(table, a, b[..|b| - 1]);
    }
  }

  lemma {:induction false} InsertTakenIsNoOp(table: seq<Row>, rows: seq<Row>)
    requires forall i :: 0 <= i < |rows| ==> rows[i].key.Some? && Taken(table, rows[i].customer, rows[i].key.value)
    ensures InsertAll(table, rows) == table
  {
    if rows != [] {
      InsertTakenIsNoOp(table, rows[..|rows| - 1]);
    }
  }

  /** Storing a batch a second time stores nothing exactly when every metric of it has a key. */
  lemma SecondInsertIsNoOpExactlyWhenKeyed(table: seq<Row>, rows: seq<Row>)
    requires UniqueKeys(table)
    ensures InsertAll(InsertAll(table, rows), rows) == InsertAll(table, rows)
       <==> forall i :: 0 <= i < |rows| ==> rows[i].key.Some?
  {
    var once := InsertAll(table, rows);
    InsertAllStoresOnce(table, rows);
    if forall i :: 0 <= i < |rows| ==> rows[i].key.Some? {
      InsertTakenIsNoOp(once, rows);
    } else {
      var i :| 0 <= i < |rows| && rows[i].key.None?;
      KeylessRowsGrow(once, rows, i);
    }
  }

  lemma {:induction false} KeylessRowsGrow(table: seq<Row>, rows: seq<Row>, i: nat)
    requires i < |rows| && rows[i].key.None?
    ensures |InsertAll(table, rows)| > |table|
  {
    if i < |rows| - 1 {
      KeylessRowsGrow(table, rows[..|rows| - 1], i);
    }
  }

  /** ingest_metrics for one machine. */
  function Ingested(db: Db, machine: nat, source: string, items: seq<Item>, now: int, accepted: nat): (r: Db)
    requires machine < |db.machines|
    ensures |r.machines| == |db.machines|
  {
    var m := db.machines[machine];
    if m.source != source || !Normalizes(items) then db
    else
      var last := items[|items| - 1];
      Db(InsertAll(db.table, RowsOf(m.customer, machine, items)),
         db.machines[machine := m.(power := Online, lastSeen := Some(now))],
         db.updates + [Update(machine, last.name, last.value, accepted)])
  }

  predicate Accepts(db: Db, machine: nat, source: string, items: seq<Item>)
    requires machine < |db.machines|
  {
    db.machines[machine].source == source && Normalizes(items)
  }

  /** The rows the loop picks: keys not known before, each key once, and all rows without a key. */
  function Picked(rows: seq<Row>, existing: set<MetricKey>): (r: (seq<Row>, set<MetricKey>))
    ensures |r.0| <= |rows|
  {
    if rows == [] then ([], existing)
    else
      var (chosen, seen) := Picked(rows[..|rows| - 1], existing);
      var row := rows[|rows| - 1];
      if row.key.Some? && row.key.value in seen then (chosen, seen)
      else (chosen + [row], if row.key.Some? then seen + {row.key.value} else seen)
  }

  /** When the key query missed nothing, the reported count is the number of rows stored. */
  lemma {:induction false} CountIsWhatWasStored(table: seq<Row>, rows: seq<Row>, customer: nat,
                                                existing: set<MetricKey>)
    requires forall i :: 0 <= i < |rows| ==> rows[i].customer == customer
    requires forall i :: 0 <= i < |rows| && rows[i].key.Some? ==>
               (rows[i].key.value in existing <==> Taken(table, customer, rows[i].key.value))
    ensures |InsertAll(table, rows)| == |table| + |Picked(rows, existing).0|
    ensures forall key :: key in Picked(rows, existing).1 <==>
              key in existing || exists i :: 0 <= i < |rows| && rows[i].key == Some(key)
    ensures forall key :: Taken(InsertAll(table, rows), customer, key) <==>
              Taken(table, customer, key) || exists i :: 0 <= i < |rows| && rows[i].key == Some(key)
  {
    if rows != [] {
      var init, last := rows[..|rows| - 1], rows[|rows| - 1];
      CountIsWhatWasStored(table, init, customer, existing);
      var before, after := InsertAll(table, init), InsertAll(table, rows);
      forall key
        ensures (exists i :: 0 <= i < |rows| && rows[i].key == Some(key))
           <==> (exists i :: 0 <= i < |init| && init[i].key == Some(key)) || last.key == Some(key)
      {
        assert forall i :: 0 <= i < |init| ==> init[i] == rows[i];
        assert rows[|init|] == last;
      }
      forall key
        ensures Taken(after, customer, key) <==> Taken(before, customer, key) || last.key == Some(key)
      {
        if after != before {
          assert after[|before|] == last && forall i :: 0 <= i < |before| ==> after[i] == before[i];
        }
      }
    }
  }

  /** What the key query returns when no other transaction interferes. */
  function KnownKeys(table: seq<Row>, customer: nat): set<MetricKey> {
    set i | 0 <= i < |table| && table[i].customer == customer && table[i].key.Some? :: table[i].key.value
  }

  lemma KnownKeysAreTaken(table: seq<Row>, customer: nat)
    ensures forall key :: key in KnownKeys(table, customer) <==> Taken(table, customer, key)
  {
  }

  /** The count reported then. */
  function Count(db: Db, machine: nat, items: seq<Item>): nat
    requires machine < |db.machines| && forall i :: 0 <= i < |items| ==> items[i].Valid?
  {
    var customer := db.machines[machine].customer;
    |Picked(RowsOf(customer, machine, items), KnownKeys(db.table, customer)).0|
  }

  lemma TakenAfterInsert(table: seq<Row>, row: Row, key: MetricKey)
    ensures Taken(Insert(table, row), row.customer, key) <==> Taken(table, row.customer, key) || row.key == Some(key)
  {
    var after := Insert(table, row);
    if after != table {
      assert after[|table|] == row && forall i :: 0 <= i < |table| ==> after[i] == table[i];
    }
  }

  /** Whatever the key query missed, inserting the picked rows leaves the table of inserting them all. */
  lemma {:induction false} PickingLosesNothing(table: seq<Row>, rows: seq<Row>, customer: nat, existing: set<MetricKey>)
    requires forall i :: 0 <= i < |rows| ==> rows[i].customer == customer
    requires forall key :: key in existing ==> Taken(table, customer, key)
    ensures InsertAll(table, Picked(rows, existing).0) == InsertAll(table, rows)
    ensures forall key :: key in Picked(rows, existing).1 ==> Taken(InsertAll(table, rows), customer, key)
  {
    if rows != [] {
      var init, row := rows[..|rows| - 1], rows[|rows| - 1];
      PickingLosesNothing(table, init, customer, existing);
      var (chosen, seen) := Picked(init, existing);
      assert (chosen + [row])[..|chosen|] == chosen;
      forall key
        ensures Taken(InsertAll(table, rows), customer, key) <==>
                  Taken(InsertAll(table, init), customer, key) || row.key == Some(key)
      {
        TakenAfterInsert(InsertAll(table, init), row, key);
      }
    }
  }

  // ----- What is stored -----

  /** The row holds the item: its machine, its key, and what was measured. */
  predicate Holds(row: Row, customer: nat, machine: nat, item: Item) {
    && item.Valid? && row.customer == customer && row.machine == machine && row.key == item.key
    && row.name == item.name && row.value == item.value && row.timestamp == item.timestamp
  }

  /** Row k is the only one of the customer with the key. */
  ghost predicate OnlyRow(table: seq<Row>, k: nat, customer: nat, key: MetricKey) {
    && k < |table| && table[k].customer == customer && table[k].key == Some(key)
    && forall l :: 0 <= l < |table| && table[l].customer == customer && table[l].key == Some(key) ==> l == k
  }

  lemma {:induction false} InsertAllInvents(table: seq<Row>, rows: seq<Row>, k: nat)
    requires |table| <= k < |InsertAll(table, rows)|
    ensures InsertAll(table, rows)[k] in rows
  {
    if k < |InsertAll(table, rows[..|rows| - 1])| {
      InsertAllInvents(table, rows[..|rows| - 1], k);
    }
  }

  lemma NewKeysComeFromRows(table: seq<Row>, rows: seq<Row>, customer: nat, key: MetricKey)
    ensures Taken(InsertAll(table, rows), customer, key) ==>
              Taken(table, customer, key) || exists i :: 0 <= i < |rows| && rows[i].key == Some(key)
  {
    var all := InsertAll(table, rows);
    if k :| 0 <= k < |all| && all[k].customer == customer && all[k].key == Some(key) {
      if k < |table| {
        assert table[k] == all[..|table|][k];
      } else {
        InsertAllInvents(table, rows, k);
      }
    }
  }

  lemma RowOfFreeKeyIsStored(table: seq<Row>, rows: seq<Row>, j: nat)
    requires j < |rows|
    requires rows[j].key.Some? ==> !Taken(table, rows[j].customer, rows[j].key.value)
    requires rows[j].key.Some? ==> forall i :: 0 <= i < j ==> rows[i].key != rows[j].key
    ensures exists k :: |table| <= k < |InsertAll(table, rows)| && InsertAll(table, rows)[k] == rows[j]
  {
    var before, after := InsertAll(table, rows[..j]), InsertAll(table, rows[..j + 1]);
    assert rows[..j + 1][..j] == rows[..j];
    if rows[j].key.Some? {
      NewKeysComeFromRows(table, rows[..j], rows[j].customer, rows[j].key.value);
    }
    assert after == before + [rows[j]];
    assert rows == rows[..j + 1] + rows[j + 1..];
    InsertAllConcat(table, rows[..j + 1], rows[j + 1..]);
    var all := InsertAll(table, rows);
    assert all[..|after|][|before|] == all[|before|];
  }

  /**
   * After an accepted batch each of its items whose key is free and new in the batch has exactly one row,
   * an item without a key has a row, and that row holds the item as it was measured.
   */
  lemma StoredRowHoldsItsItem(db: Db, machine: nat, source: string, items: seq<Item>, now: int, accepted: nat, j: nat)
    requires machine < |db.machines| && UniqueKeys(db.table) && Accepts(db, machine, source, items) && j < |items|
    requires var customer := db.machines[machine].customer;
             items[j].key.Some? ==>
               !Taken(db.table, customer, items[j].key.value) && forall i :: 0 <= i < j ==> items[i].key != items[j].key
    ensures var customer, r := db.machines[machine].customer, Ingested(db, machine, source, items, now, accepted);
            exists k :: |db.table| <= k < |r.table| && Holds(r.table[k], customer, machine, items[j])
              && (items[j].key.Some? ==> OnlyRow(r.table, k, customer, items[j].key.value))
  {
    var customer, r := db.machines[machine].customer, Ingested(db, machine, source, items, now, accepted);
    var rows := RowsOf(customer, machine, items);
    InsertAllStoresOnce(db.table, rows);
    RowOfFreeKeyIsStored(db.table, rows, j);
    var k :| |db.table| <= k < |r.table| && r.table[k] == rows[j];
    assert Holds(r.table[k], customer, machine, items[j]);
  }

  /**
   * The rows of before stay, every new row holds an item of the batch, the machine is online and was seen
   * now, no other machine changes, and the last measurement is published.
   */
  lemma IngestedShowsTheBatch(db: Db, machine: nat, source: string, items: seq<Item>, now: int, accepted: nat)
    requires machine < |db.machines| && Accepts(db, machine, source, items)
    ensures var r, m := Ingested(db, machine, source, items, now, accepted), db.machines[machine];
            && |db.table| <= |r.table| && r.table[..|db.table|] == db.table
            && (forall k :: |db.table| <= k < |r.table| ==>
                  exists j :: 0 <= j < |items| && Holds(r.table[k], m.customer, machine, items[j]))
            && r.machines[machine].power.Online? && r.machines[machine].lastSeen == Some(now)
            && r.machines[machine].(power := m.power, lastSeen := m.lastSeen) == m
            && (forall n :: 0 <= n < |r.machines| && n != machine ==> r.machines[n] == db.machines[n])
            && |r.updates| == |db.updates| + 1 && r.updates[..|db.updates|] == db.updates
            && var last := items[|items| - 1];
               r.updates[|db.updates|] == Update(machine, last.name, last.value, accepted)
  {
    var r, customer := Ingested(db, machine, source, items, now, accepted), db.machines[machine].customer;
    var rows := RowsOf(customer, machine, items);
    forall k | |db.table| <= k < |r.table|
      ensures exists j :: 0 <= j < |items| && Holds(r.table[k], customer, machine, items[j])
    {
      InsertAllInvents(db.table, rows, k);
      var j :| 0 <= j < |rows| && rows[j] == r.table[k];
      assert Holds(r.table[k], customer, machine, items[j]);
    }
  }

  class MetricStore {
    var table: seq<Row>
    var machines: seq<Machine>
    var updates: seq<Update>

    function State(): Db
      reads this
    {
      Db(table, machines, updates)
    }

    constructor ()
      ensures State() == Db([], [], []) && UniqueKeys(table)
    {
      table, machines, updates := [], [], [];
    }

    /**
     * Stores a batch. The parameter existing is what the key query returned; it may miss keys
     * that a concurrent transaction has committed since, and the result does not depend on it.
     */
    method IngestMetrics(machine: nat, source: string, items: seq<Item>, now: int, existing: set<MetricKey>)
      returns (outcome: Outcome)
      requires machine < |machines|
      requires forall key :: key in existing ==> Taken(table, machines[machine].customer, key)
      modifies this
      ensures var accepted := if outcome.Accepted? then outcome.count else 0;
              State() == Ingested(old(State()), machine, source, items, now, accepted)
      ensures outcome.Accepted? <==> Accepts(old(State()), machine, source, items)
      ensures outcome.Accepted? <==>
                old(machines)[machine].source == source && 1 <= |items| <= 5000 && Invalid !in items
      ensures outcome.Accepted? ==>
                outcome.count == |Picked(RowsOf(old(machines)[machine].customer, machine, items), existing).0|
    {
      var m := machines[machine];
      if m.source != source || !Normalizes(items) {
        return Rejected;
      }
      var rows := RowsOf(m.customer, machine, items);
      var seen := existing;
      var insertRows := [];
      for i := 0 to |rows|
        invariant (insertRows, seen) == Picked(rows[..i], existing)
      {
        assert rows[..i + 1][..i] == rows[..i];
        var key := rows[i].key;
        if key.Some? && key.value in seen {
          continue;
        }
        if key.Some? {
          seen := seen + {key.value};
        }
        insertRows := insertRows + [rows[i]];
      }
      assert rows[..|rows|] == rows;
      PickingLosesNothing(table, rows, m.customer, existing);
      table := InsertAll(table, insertRows);
      machines := machines[machine := m.(power := Online, lastSeen := Some(now))];
      var latest := items[|items| - 1];
      updates := updates + [Update(machine, latest.name, latest.value, |insertRows|)];
      return Accepted(|insertRows|);
    }
  }
}
