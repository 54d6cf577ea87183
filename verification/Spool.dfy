/** The agent's bounded persistent queue. */
module SpoolQueue {
  import opened Common

  datatype Entry<T> = Entry(id: nat, payload: T)

  /** The table and its AUTOINCREMENT counter. */
  datatype Queue<T> = Queue(rows: seq<Entry<T>>, nextId: nat)

  /** Ids grow along the queue and stay below the counter. */
  ghost predicate Ordered<T>(q: Queue<T>) {
    && (forall i, j :: 0 <= i < j < |q.rows| ==> q.rows[i].id < q.rows[j].id)
    && forall i :: 0 <= i < |q.rows| ==> q.rows[i].id < q.nextId
  }

  /** How many rows a table of the given size loses to the bound. */
  function Overflow(count: nat, maxItems: int): (n: nat)
    ensures n <= count
    ensures n == 0 <==> count == 0 || count <= maxItems
  {
    Min(count, Max(count - maxItems, 0))
  }

  function Pushed<T>(q: Queue<T>, payload: T, maxItems: int): (r: Queue<T>)
    ensures Ordered(q) ==> Ordered(r)
  {
    var all := q.rows + [Entry(q.nextId, payload)];
    Queue(all[Overflow(|all|, maxItems)..], q.nextId + 1)
  }

  function Peeked<T>(q: Queue<T>, limit: nat): seq<Entry<T>> {
    q.rows[..Min(limit, |q.rows|)]
  }

  /** The rows without the one of the given id. */
  function Without<T>(rows: seq<Entry<T>>, id: nat): seq<Entry<T>> {
    if rows == [] then []
    else Without(rows[..|rows| - 1], id) + if rows[|rows| - 1].id == id then [] else [rows[|rows| - 1]]
  }

  lemma {:induction false} WithoutKeepsOthers<T>(rows: seq<Entry<T>>, id: nat)
    requires forall i :: 0 <= i < |rows| ==> rows[i].id != id
    ensures Without(rows, id) == rows
  {
    if rows != [] {
      WithoutKeepsOthers(rows[..|rows| - 1], id);
    }
  }

  lemma {:induction false} WithoutHead<T>(rows: seq<Entry<T>>)
    requires rows != [] && forall i :: 0 < i < |rows| ==> rows[i].id != rows[0].id
    ensures Without(rows, rows[0].id) == rows[1..]
  {
    if |rows| > 1 {
      var init := rows[..|rows| - 1];
      WithoutHead(init);
      assert rows[1..] == init[1..] + [rows[|rows| - 1]];
    }
  }

  lemma {:induction false} WithoutMembers<T>(rows: seq<Entry<T>>, id: nat, e: Entry<T>)
    ensures e in Without(rows, id) <==> e in rows && e.id != id
  {
    if rows != [] {
      WithoutMembers(rows[..|rows| - 1], id, e);
      assert rows == rows[..|rows| - 1] + [rows[|rows| - 1]];
    }
  }

  /** Deleting a row leaves the others in their order. */
  lemma {:induction false} WithoutKeepsOrder<T>(q: Queue<T>, id: nat)
    requires Ordered(q)
    ensures Ordered(Queue(Without(q.rows, id), q.nextId))
    decreases |q.rows|
  {
    if q.rows != [] {
      var init, last := q.rows[..|q.rows| - 1], q.rows[|q.rows| - 1];
      var rest := Without(init, id);
      WithoutKeepsOrder(Queue(init, q.nextId), id);
      forall i | 0 <= i < |rest|
        ensures rest[i].id < last.id
      {
        WithoutMembers(init, id, rest[i]);
        assert rest[i] in rest;
        var k :| 0 <= k < |init| && init[k] == rest[i];
      }
    }
  }

  /** A push leaves one row more, or as many as the bound allows. */
  lemma CountAfterPush<T>(q: Queue<T>, payload: T, maxItems: int)
    ensures |Pushed(q, payload, maxItems).rows| == Min(|q.rows| + 1, Max(maxItems, 0))
  {
  }

  /** Deleting the head of an ordered queue removes that row and no other. */
  lemma DeleteHead<T>(q: Queue<T>)
    requires Ordered(q) && q.rows != []
    ensures Without(q.rows, q.rows[0].id) == q.rows[1..]
    ensures Ordered(Queue(q.rows[1..], q.nextId))
  {
    WithoutHead(q.rows);
  }

  /** A push evicts nothing, and puts the payload last, exactly when the bound leaves room for it. */
  lemma PushEvictsNothingExactlyWithRoom<T>(q: Queue<T>, payload: T, maxItems: int)
    ensures Pushed(q, payload, maxItems).rows == q.rows + [Entry(q.nextId, payload)] <==> |q.rows| + 1 <= maxItems
    ensures |Pushed(q, payload, maxItems).rows| <= Max(maxItems, 0) || maxItems < 0
  {
    var all := q.rows + [Entry(q.nextId, payload)];
    assert |all[Overflow(|all|, maxItems)..]| == |all| - Overflow(|all|, maxItems);
  }

  class Spool<T> {
    var rows: seq<Entry<T>>
    var nextId: nat
    const maxItems: int

    function State(): Queue<T>
      reads this
    {
      Queue(rows, nextId)
    }

    constructor (maxItems: int)
      ensures State() == Queue([], 1) && this.maxItems == maxItems && Ordered(State())
    {
      rows, nextId, this.maxItems := [], 1, maxItems;
    }

    /** Appends a payload and drops the oldest rows beyond the bound. */
    method Push(payload: T)
      modifies this
      ensures State() == Pushed(old(State()), payload, maxItems)
    {
      rows := rows + [Entry(nextId, payload)];
      nextId := nextId + 1;
      var overflow := Max(|rows| - maxItems, 0);
      if overflow > 0 {
        rows := rows[Min(overflow, |rows|)..];
      }
    }

    /** The oldest rows, oldest first. */
    method Peek(limit: nat) returns (entries: seq<Entry<T>>)
      ensures entries == Peeked(State(), limit)
      ensures |entries| == Min(limit, |rows|) && entries <= rows
    {
      entries := if |rows| <= limit then rows else rows[..limit];
    }

    method Delete(id: nat)
      modifies this`rows
      ensures State() == Queue(Without(old(rows), id), old(nextId))
      ensures old(Ordered(State())) ==> Ordered(State())
      ensures forall e :: e in rows <==> e in old(rows) && e.id != id
    {
      ghost var before := State();
      rows := Without(rows, id);
      if Ordered(before) {
        WithoutKeepsOrder(before, id);
      }
      forall e
        ensures e in rows <==> e in before.rows && e.id != id
      {
        WithoutMembers(before.rows, id, e);
      }
    }

    method Count() returns (n: nat)
      ensures n == |rows|
    {
      n := |rows|;
    }
  }
}
