/** The archive worker: the connection's callbacks, the write queue and its consumer. */
module ArchiveWorker {
  import opened Wrappers
  import opened ArchiveRows
  import opened ArchiveReplication

  /** The archive database, behind a queue that one consumer drains in order. */
  class ArchiveDatabase {
    var queue: seq<Op>
    var inHand: Option<Op>
    var rows: map<Place, Columns>
    var counts: map<Table, nat>

    constructor (rows: map<Place, Columns>, counts: map<Table, nat>)
      ensures queue == [] && inHand == None && Contents() == Store(rows, counts)
    {
      this.queue := [];
      this.inHand := None;
      this.rows := rows;
      this.counts := counts;
    }

    function Contents(): Store
      reads this`rows, this`counts
    {
      Store(rows, counts)
    }

    function Pending(): seq<Op>
      reads this`queue, this`inHand
    {
      (if inHand.Some? then [inHand.value] else []) + queue
    }

    /** What the archive becomes once the consumer is through. */
    function Drained(): Store
      reads this
    {
      ApplyAll(Contents(), Pending())
    }

    method Enqueue(op: Op)
      modifies this`queue
      ensures queue == old(queue) + [op]
      ensures Drained() == Apply(old(Drained()), op)
    {
      ghost var pending := Pending();
      queue := queue + [op];
      assert Pending() == pending + [op];
      ApplyAllConcat(Contents(), pending, [op]);
    }

    /** The key of every archived row of a table, by its text. */
    method ReadKeys(table: Table) returns (keys: map<string, Place>)
      ensures forall p :: p in rows && p.table == table ==> KeyOf(p.key) in keys && keys[KeyOf(p.key)] == p
      ensures forall k :: k in keys ==> keys[k] in rows && keys[k].table == table && KeyOf(keys[k].key) == k
    {
      keys := map[];
      var rest := rows.Keys;
      while rest != {}
        invariant rest <= rows.Keys
        invariant forall p :: p in rows && p !in rest && p.table == table ==>
          KeyOf(p.key) in keys && keys[KeyOf(p.key)] == p
        invariant forall k :: k in keys ==> keys[k] in rows && keys[k].table == table && KeyOf(keys[k].key) == k
        decreases rest
      {
        var p :| p in rest;
        if p.table == table {
          forall q: Place | q.table == table && KeyOf(q.key) == KeyOf(p.key) ensures q == p {
            KeyOfIsInjective(table, q.key, p.key);
          }
          keys := keys[KeyOf(p.key) := p];
        }
        rest := rest - {p};
      }
    }

    /** Deletes what is archived but not live, then stamps; an outage can stop it between any two statements. */
    method RunReconcile(table: Table, liveKeys: set<string>, outage: bool) returns (ok: bool)
      modifies this`rows, this`counts
      ensures PartlyApplied(old(Contents()), Reconcile(table, liveKeys), Contents())
      ensures ok ==> Contents() == Apply(old(Contents()), Reconcile(table, liveKeys))
      ensures !outage ==> ok
    {
      var keys := ReadKeys(table);
      var rest := keys.Keys;
      while rest != {}
        invariant rest <= keys.Keys
        invariant counts == old(counts) && rows.Keys <= old(rows).Keys
        invariant forall p :: p in rows ==> rows[p] == old(rows)[p]
        invariant forall p :: p in old(rows) ==>
          (p !in rows <==> !Survives(p, table, liveKeys) && KeyOf(p.key) !in rest)
        decreases rest
      {
        if outage {
          if * {
            return false;
          }
        }
        var key :| key in rest;
        if key !in liveKeys {
          rows := rows - {keys[key]};
        }
        rest := rest - {key};
      }
      assert rows == Apply(old(Contents()), Reconcile(table, liveKeys)).rows;
      if outage {
        if * {
          return false;
        }
      }
      counts := counts[table := |liveKeys|];
      ok := true;
      if outage {
        ok := *;
      }
    }

    /** One try of one write; during an outage it may fail before or after it took effect. */
    method TryRun(op: Op, outage: bool) returns (ok: bool)
      modifies this`rows, this`counts
      ensures PartlyApplied(old(Contents()), op, Contents())
      ensures ok ==> Contents() == Apply(old(Contents()), op)
      ensures !outage ==> ok
    {
      if outage {
        if * {
          return false;
        }
      }
      match op
      case Reconcile(table, liveKeys) =>
        ok := RunReconcile(table, liveKeys, outage);
      case Upsert(place, columns) =>
        rows := rows[place := columns];
        ok := true;
        if outage {
          ok := *;
        }
      case Delete(place) =>
        rows := rows - {place};
        ok := true;
        if outage {
          ok := *;
        }
    }

    /** Takes the next write and retries it until it is through. */
    method RunNext()
      requires inHand == None && queue != []
      modifies this
      ensures inHand == None && queue == old(queue)[1..]
      ensures Contents() == Apply(old(Contents()), old(queue)[0])
    {
      var op := queue[0];
      inHand := Some(op);
      queue := queue[1..];
      var outages: nat := *;
      var delay := 1000;
      var ok := false;
      while !ok
        invariant Apply(Contents(), op) == Apply(old(Contents()), op)
        invariant ok ==> Contents() == Apply(old(Contents()), op)
        invariant inHand == Some(op) && queue == old(queue)[1..]
        invariant 1000 <= delay <= 15000
        decreases outages + if ok then 0 else 1
      {
        ghost var before := Contents();
        ok := TryRun(op, outages > 0);
        RetryRefinesOneRun(before, op, Contents());
        if outages > 0 {
          outages := outages - 1;
        }
        delay := if delay * 2 < 15000 then delay * 2 else 15000;
      }
      inHand := None;
    }

    /** The drained archive is what one run of every queued write, in order, makes of it. */
    method RunConsumer()
      requires inHand == None
      modifies this
      ensures queue == [] && inHand == None
      ensures Contents() == old(Drained())
    {
      assert Pending() == queue;
      while queue != []
        invariant inHand == None
        invariant ApplyAll(Contents(), queue) == old(Drained())
        decreases |queue|
      {
        RunNext();
      }
    }
  }

  /** One connection: the client cache, its status rows, and what the callbacks remember. */
  class Replication {
    const db: ArchiveDatabase
    var live: set<Row>
    var status: set<bool>
    var subscribed: bool
    var canDelete: bool

    constructor (db: ArchiveDatabase)
      ensures this.db == db && live == {} && status == {} && Remembered() == Listener(false, false)
    {
      this.db := db;
      this.live := {};
      this.status := {};
      this.subscribed := false;
      this.canDelete := false;
    }

    function Remembered(): Listener
      reads this`subscribed, this`canDelete
    {
      Listener(subscribed, canDelete)
    }

    /** The SDK applies a whole transaction to the cache before it runs any callback. */
    method ApplyTransaction(live: set<Row>, status: set<bool>)
      modifies this`live, this`status
      ensures this.live == live && this.status == status
    {
      this.live := live;
      this.status := status;
    }

    method OnUpsert(row: Row)
      modifies db`queue
      ensures db.queue == old(db.queue) + RowOps(live, status, Inserted(row))
    {
      db.Enqueue(UpsertOf(row));
    }

    /** Scans the cache: a row that is still live under its key was updated, not deleted. */
    method OnDelete(row: Row)
      modifies db`queue
      ensures db.queue == old(db.queue) + RowOps(live, status, Deleted(row))
    {
      if !CanDelete(status) {
        return;
      }
      var key := LiveKey(row);
      var rest := live;
      while rest != {}
        invariant rest <= live
        invariant forall r :: r in live && r !in rest && TableOf(r) == TableOf(row) ==> LiveKey(r) != key
        decreases rest
      {
        var r :| r in rest;
        if TableOf(r) == TableOf(row) && LiveKey(r) == key {
          return;
        }
        rest := rest - {r};
      }
      db.Enqueue(Delete(PlaceOf(row)));
    }

    /** Snapshots the live keys of one table. */
    method Build(table: Table) returns (keys: set<string>)
      ensures keys == LiveKeys(live, table)
    {
      keys := {};
      var rest := live;
      while rest != {}
        invariant rest <= live
        invariant keys == LiveKeys(live - rest, table)
        decreases rest
      {
        var row :| row in rest;
        ghost var seen := live - rest;
        assert live - (rest - {row}) == seen + {row};
        if TableOf(row) == table {
          keys := keys + {LiveKey(row)};
        }
        assert keys == LiveKeys(seen + {row}, table);
        rest := rest - {row};
      }
      assert live - rest == live;
    }

    method BuildAll(tables: seq<Table>) returns (requests: seq<Op>, empty: bool)
      ensures requests == Requests(live, tables) && empty == AllEmpty(requests)
    {
      requests := [];
      empty := true;
      for i := 0 to |tables|
        invariant requests == Requests(live, tables[..i])
        invariant empty == AllEmpty(requests)
      {
        var keys := Build(tables[i]);
        assert tables[..i + 1][..i] == tables[..i];
        requests := requests + [Reconcile(tables[i], keys)];
        empty := empty && keys == {};
      }
      assert tables[..|tables|] == tables;
    }

    method ReconcileEverything()
      modifies db`queue
      ensures db.queue == old(db.queue) + ReconcileAll(live, status)
    {
      if !CanDelete(status) {
        return;
      }
      var requests, empty := BuildAll(TABLES);
      if empty {
        return;
      }
      EnqueueAll(requests);
    }

    method EnqueueAll(requests: seq<Op>)
      modifies db`queue
      ensures db.queue == old(db.queue) + requests
    {
      for i := 0 to |requests|
        invariant db.queue == old(db.queue) + requests[..i]
      {
        db.Enqueue(requests[i]);
        assert requests[..i + 1] == requests[..i] + [requests[i]];
      }
      assert requests[..|requests|] == requests;
    }

    method ReconcileWhenReady()
      modifies this`canDelete, db`queue
      ensures Remembered() == WhenReady(live, status, old(Remembered())).listener
      ensures db.queue == old(db.queue) + WhenReady(live, status, old(Remembered())).ops
    {
      if !subscribed {
        return;
      }
      var ready := CanDelete(status);
      if ready && !canDelete {
        ReconcileEverything();
      }
      canDelete := ready;
    }

    method OnApplied()
      modifies this`subscribed, this`canDelete, db`queue
      ensures
        var l := old(Remembered()).(subscribed := true);
        && Remembered() == WhenReady(live, status, l).listener
        && db.queue == old(db.queue) + WhenReady(live, status, l).ops
    {
      subscribed := true;
      ReconcileWhenReady();
    }

    method OnCallback(callback: Callback)
      modifies this`canDelete, db`queue
      ensures Remembered() == React(live, status, old(Remembered()), callback).listener
      ensures db.queue == old(db.queue) + React(live, status, old(Remembered()), callback).ops
    {
      match callback
      case Inserted(row) => OnUpsert(row);
      case Updated(_, row) => OnUpsert(row);
      case Deleted(row) => OnDelete(row);
      case StatusChanged => ReconcileWhenReady();
    }

    /** Runs the callbacks of one transaction, in the order the SDK chose. */
    method RunCallbacks(callbacks: seq<Callback>)
      modifies this`canDelete, db`queue
      ensures Remembered() == ReactAll(live, status, old(Remembered()), callbacks).listener
      ensures db.queue == old(db.queue) + ReactAll(live, status, old(Remembered()), callbacks).ops
      decreases |callbacks|
    {
      if callbacks != [] {
        var front, last := callbacks[..|callbacks| - 1], callbacks[|callbacks| - 1];
        ghost var was, queue := Remembered(), db.queue;
        RunCallbacks(front);
        ghost var between := Remembered();
        OnCallback(last);
        ReactAllLast(live, status, was, callbacks, between, queue);
      }
    }

    method OnTransaction(live: set<Row>, status: set<bool>, callbacks: seq<Callback>)
      modifies this, db`queue
      ensures this.live == live && this.status == status
      ensures Remembered() == ReactAll(live, status, old(Remembered()), callbacks).listener
      ensures db.queue == old(db.queue) + ReactAll(live, status, old(Remembered()), callbacks).ops
    {
      ApplyTransaction(live, status);
      RunCallbacks(callbacks);
    }
  }
}
