/**
  The replication as values: what the row and status callbacks of one
  connection enqueue, and what the enqueued writes make of the archive.
*/
module ArchiveReplication {
  import opened Wrappers
  import opened ArchiveRows

  datatype PlaceData = Place(table: Table, key: Value)

  /** A primary key of an archive table; its column is typed. */
  type Place = p: PlaceData | FitsKey(p.table, p.key) witness Place(Users, Str(""))

  type Columns = seq<Value>

  /** The archive's rows, and the row counts stamped in `replication_state`. */
  datatype Store = Store(rows: map<Place, Columns>, counts: map<Table, nat>)

  datatype Op =
    | Upsert(place: Place, columns: Columns)
    | Delete(place: Place)
    | Reconcile(table: Table, liveKeys: set<string>)

  function PlaceOf(row: Row): Place {
    PrimaryKeyFits(row);
    Place(TableOf(row), PrimaryKey(row))
  }

  // ------------------------------------------------------------ applying writes

  predicate Survives(p: Place, table: Table, liveKeys: set<string>) {
    p.table == table ==> KeyOf(p.key) in liveKeys
  }

  function Apply(s: Store, op: Op): Store {
    match op
    case Upsert(p, columns) => s.(rows := s.rows[p := columns])
    case Delete(p) => s.(rows := s.rows - {p})
    case Reconcile(table, liveKeys) =>
      Store(map p | p in s.rows && Survives(p, table, liveKeys) :: s.rows[p], s.counts[table := |liveKeys|])
  }

  function ApplyAll(s: Store, ops: seq<Op>): Store
    decreases ops
  {
    if ops == [] then s else ApplyAll(Apply(s, ops[0]), ops[1..])
  }

  lemma {:induction false} ApplyAllConcat(s: Store, xs: seq<Op>, ys: seq<Op>)
    ensures ApplyAll(s, xs + ys) == ApplyAll(ApplyAll(s, xs), ys)
    decreases xs
  {
    if xs == [] {
      assert xs + ys == ys;
    } else {
      assert (xs + ys)[1..] == xs[1..] + ys;
      ApplyAllConcat(Apply(s, xs[0]), xs[1..], ys);
    }
  }

  /**
    What a failed try can leave: a statement took effect or not, and a
    reconcile stopped between two of its deletes, or after its stamp.
  */
  ghost predicate PartlyApplied(s: Store, op: Op, t: Store) {
    match op
    case Upsert(_, _) => t == s || t == Apply(s, op)
    case Delete(_) => t == s || t == Apply(s, op)
    case Reconcile(table, liveKeys) =>
      && t.rows.Keys <= s.rows.Keys
      && (forall p :: p in t.rows ==> t.rows[p] == s.rows[p])
      && (forall p :: p in s.rows && Survives(p, table, liveKeys) ==> p in t.rows)
      && (t.counts == s.counts || t == Apply(s, op))
  }

  /** However far a try came, running the write again ends where one full run does. */
  lemma RetryRefinesOneRun(s: Store, op: Op, t: Store)
    requires PartlyApplied(s, op, t)
    ensures Apply(t, op) == Apply(s, op)
  {
    if op.Reconcile? {
      assert Apply(t, op).rows == Apply(s, op).rows;
    }
  }

  // ------------------------------------------------------- what callbacks enqueue

  /** What one connection remembers between callbacks. */
  datatype Listener = Listener(subscribed: bool, canDelete: bool)

  datatype Callback =
    | Inserted(row: Row)
    | Updated(was: Row, row: Row)
    | Deleted(row: Row)
    | StatusChanged

  datatype Reaction = Reaction(listener: Listener, ops: seq<Op>)

  predicate CanDelete(status: set<bool>) {
    true in status
  }

  function UpsertOf(row: Row): Op {
    Upsert(PlaceOf(row), Encode(row))
  }

  function LiveKey(row: Row): string {
    KeyOf(PrimaryKey(row))
  }

  predicate HasLiveKey(live: set<Row>, table: Table, key: string) {
    exists row :: row in live && TableOf(row) == table && LiveKey(row) == key
  }

  function LiveKeys(live: set<Row>, table: Table): set<string> {
    set row | row in live && TableOf(row) == table :: LiveKey(row)
  }

  /** The row callbacks run against the cache as the whole transaction leaves it. */
  function RowOps(live: set<Row>, status: set<bool>, callback: Callback): seq<Op> {
    match callback
    case Inserted(row) => [UpsertOf(row)]
    case Updated(_, row) => [UpsertOf(row)]
    case Deleted(row) =>
      if !CanDelete(status) || HasLiveKey(live, TableOf(row), LiveKey(row)) then [] else [Delete(PlaceOf(row))]
    case StatusChanged => []
  }

  const TABLES: seq<Table> := [
    Users, Servers, Members, Bans, JoinRequests, Invites, DmServerInvites,
    Channels, Messages, DirectMessages, Friends, Blocks, ReadStates, PinnedMessages]

  function Requests(live: set<Row>, tables: seq<Table>): (ops: seq<Op>)
    ensures |ops| == |tables|
    ensures forall i :: 0 <= i < |tables| ==> ops[i] == Reconcile(tables[i], LiveKeys(live, tables[i]))
  {
    if tables == [] then []
    else
      var n := |tables| - 1;
      Requests(live, tables[..n]) + [Reconcile(tables[n], LiveKeys(live, tables[n]))]
  }

  predicate AllEmpty(ops: seq<Op>) {
    forall op :: op in ops ==> op.Reconcile? && |op.liveKeys| == 0
  }

  /** `ReconcileAll`: nothing without permission, and nothing when every table looks empty. */
  function ReconcileAll(live: set<Row>, status: set<bool>): seq<Op> {
    var requests := Requests(live, TABLES);
    if !CanDelete(status) || AllEmpty(requests) then [] else requests
  }

  /** `ReconcileWhenReady`: only a rising edge reconciles. */
  function WhenReady(live: set<Row>, status: set<bool>, l: Listener): Reaction {
    if !l.subscribed then Reaction(l, [])
    else Reaction(Listener(true, CanDelete(status)),
                  if CanDelete(status) && !l.canDelete then ReconcileAll(live, status) else [])
  }

  function React(live: set<Row>, status: set<bool>, l: Listener, callback: Callback): Reaction {
    if callback.StatusChanged? then WhenReady(live, status, l)
    else Reaction(l, RowOps(live, status, callback))
  }

  function ReactAll(live: set<Row>, status: set<bool>, l: Listener, callbacks: seq<Callback>): Reaction {
    if callbacks == [] then Reaction(l, [])
    else
      var n := |callbacks| - 1;
      var before := ReactAll(live, status, l, callbacks[..n]);
      var last := React(live, status, before.listener, callbacks[n]);
      Reaction(last.listener, before.ops + last.ops)
  }

  lemma ReactAllPush(live: set<Row>, status: set<bool>, l: Listener, callbacks: seq<Callback>, callback: Callback)
    ensures
      var before := ReactAll(live, status, l, callbacks);
      var last := React(live, status, before.listener, callback);
      ReactAll(live, status, l, callbacks + [callback]) == Reaction(last.listener, before.ops + last.ops)
  {
    assert (callbacks + [callback])[..|callbacks|] == callbacks;
  }

  /** What the last callback adds to the queue. */
  lemma ReactAllLast(live: set<Row>, status: set<bool>, l: Listener, callbacks: seq<Callback>, between: Listener,
                     queue: seq<Op>)
    requires callbacks != [] && between == ReactAll(live, status, l, callbacks[..|callbacks| - 1]).listener
    ensures
      var n := |callbacks| - 1;
      var last := React(live, status, between, callbacks[n]);
      && ReactAll(live, status, l, callbacks).listener == last.listener
      && queue + ReactAll(live, status, l, callbacks[..n]).ops + last.ops
           == queue + ReactAll(live, status, l, callbacks).ops
  {
  }

  // ----------------------------------------------------- enqueued writes are sound

  /** No two rows share a primary key. */
  ghost predicate Unique(live: set<Row>) {
    forall r, s :: r in live && s in live && PlaceOf(r) == PlaceOf(s) ==> r == s
  }

  ghost predicate Occupied(live: set<Row>, p: Place) {
    exists row :: row in live && PlaceOf(row) == p
  }

  /** A write that moves the archive towards the live rows. */
  ghost predicate Sound(live: set<Row>, op: Op) {
    match op
    case Upsert(p, columns) => exists row :: row in live && op == UpsertOf(row)
    case Delete(p) => !Occupied(live, p)
    case Reconcile(table, liveKeys) => liveKeys == LiveKeys(live, table) && exists row :: row in live
  }

  lemma SurvivesIffOccupied(live: set<Row>, p: Place)
    ensures Survives(p, p.table, LiveKeys(live, p.table)) <==> Occupied(live, p)
  {
    if KeyOf(p.key) in LiveKeys(live, p.table) {
      var row :| row in live && TableOf(row) == p.table && LiveKey(row) == KeyOf(p.key);
      KeyOfIsInjective(p.table, PlaceOf(row).key, p.key);
      assert PlaceOf(row) == p;
    }
    assert forall row :: row in live && PlaceOf(row) == p ==> LiveKey(row) in LiveKeys(live, p.table);
  }

  lemma DeletedOp(live: set<Row>, status: set<bool>, row: Row)
    ensures RowOps(live, status, Deleted(row)) ==
      if CanDelete(status) && !Occupied(live, PlaceOf(row)) then [Delete(PlaceOf(row))] else []
  {
    var p := PlaceOf(row);
    SurvivesIffOccupied(live, p);
    assert HasLiveKey(live, p.table, LiveKey(row)) <==> LiveKey(row) in LiveKeys(live, p.table);
  }

  lemma EveryTable(t: Table)
    ensures t in TABLES
  {
    var i := match t
      case Users => 0 case Servers => 1 case Members => 2 case Bans => 3 case JoinRequests => 4 case Invites => 5
      case DmServerInvites => 6 case Channels => 7 case Messages => 8 case DirectMessages => 9 case Friends => 10
      case Blocks => 11 case ReadStates => 12 case PinnedMessages => 13;
    assert TABLES[i] == t;
  }

  /** The guard refuses exactly the empty snapshot; otherwise every table is reconciled against its live keys. */
  lemma ReconcileAllMeans(live: set<Row>, status: set<bool>)
    ensures ReconcileAll(live, status) == [] <==> !CanDelete(status) || live == {}
    ensures CanDelete(status) && live != {} ==>
      forall t :: Reconcile(t, LiveKeys(live, t)) in ReconcileAll(live, status)
    ensures forall op :: op in ReconcileAll(live, status) ==> op.Reconcile? && Sound(live, op)
  {
    var requests := Requests(live, TABLES);
    forall t ensures Reconcile(t, LiveKeys(live, t)) in requests {
      EveryTable(t);
      var i :| 0 <= i < |TABLES| && TABLES[i] == t;
      assert requests[i] == Reconcile(t, LiveKeys(live, t));
    }
    if live != {} {
      var row :| row in live;
      var t := TableOf(row);
      assert LiveKey(row) in LiveKeys(live, t);
      assert Reconcile(t, LiveKeys(live, t)) in requests && |LiveKeys(live, t)| > 0;
    } else {
      assert forall t :: LiveKeys(live, t) == {};
      assert AllEmpty(requests);
    }
  }

  lemma ReactIsSound(live: set<Row>, status: set<bool>, l: Listener, callback: Callback)
    requires callback.Inserted? || callback.Updated? ==> callback.row in live
    ensures forall op :: op in React(live, status, l, callback).ops ==> Sound(live, op)
    ensures forall op :: op in React(live, status, l, callback).ops && !op.Upsert? ==> CanDelete(status)
    ensures callback.StatusChanged? || forall op :: op in React(live, status, l, callback).ops ==> !op.Reconcile?
  {
    ReconcileAllMeans(live, status);
    if callback.Deleted? {
      DeletedOp(live, status, callback.row);
    } else if !callback.StatusChanged? {
      assert UpsertOf(callback.row).place == PlaceOf(callback.row);
    }
  }

  lemma {:induction false} ReactAllIsSound(live: set<Row>, status: set<bool>, l: Listener, callbacks: seq<Callback>)
    requires forall c :: c in callbacks && (c.Inserted? || c.Updated?) ==> c.row in live
    ensures forall op :: op in ReactAll(live, status, l, callbacks).ops ==> Sound(live, op)
    ensures forall op :: op in ReactAll(live, status, l, callbacks).ops && !op.Upsert? ==> CanDelete(status)
  {
    if callbacks != [] {
      var n := |callbacks| - 1;
      ReactAllIsSound(live, status, l, callbacks[..n]);
      ReactIsSound(live, status, ReactAll(live, status, l, callbacks[..n]).listener, callbacks[n]);
    }
  }

  /** Whatever the order, every row callback's writes are enqueued. */
  lemma {:induction false} CallbackIsHeard(live: set<Row>, status: set<bool>, l: Listener, callbacks: seq<Callback>,
                                           callback: Callback)
    requires callback in callbacks
    ensures AllIn(RowOps(live, status, callback), ReactAll(live, status, l, callbacks).ops)
  {
    var front, last := callbacks[..|callbacks| - 1], callbacks[|callbacks| - 1];
    assert callbacks == front + [last];
    ReactAllPush(live, status, l, front, last);
    if callback in front {
      CallbackIsHeard(live, status, l, front, callback);
    }
  }

  predicate AllIn(some: seq<Op>, ops: seq<Op>) {
    forall op :: op in some ==> op in ops
  }

  /** The reconcile requests of a transaction come from its rising edge, and only from it. */
  lemma {:induction false} ReconcilesOnRisingEdge(live: set<Row>, status: set<bool>, l: Listener,
                                                  callbacks: seq<Callback>)
    requires forall c :: c in callbacks && (c.Inserted? || c.Updated?) ==> c.row in live
    ensures var r := ReactAll(live, status, l, callbacks);
      && r.listener.subscribed == l.subscribed
      && (!l.subscribed ==> r.listener == l)
      && (l.subscribed && StatusChanged in callbacks ==> r.listener.canDelete == CanDelete(status))
      && (StatusChanged !in callbacks ==> r.listener == l)
      && (l.canDelete || !r.listener.canDelete ==> forall op :: op in r.ops ==> !op.Reconcile?)
      && (!l.canDelete && r.listener.canDelete ==> forall op :: op in ReconcileAll(live, status) ==> op in r.ops)
  {
    if callbacks != [] {
      var n := |callbacks| - 1;
      ReconcilesOnRisingEdge(live, status, l, callbacks[..n]);
      var before := ReactAll(live, status, l, callbacks[..n]);
      ReactIsSound(live, status, before.listener, callbacks[n]);
      assert callbacks == callbacks[..n] + [callbacks[n]];
    }
  }

  // ----------------------------------------------------------- what writes achieve

  ghost predicate Holds(rows: map<Place, Columns>, row: Row) {
    PlaceOf(row) in rows && rows[PlaceOf(row)] == Encode(row)
  }

  /** The archive shows every live row with its live columns. */
  ghost predicate Covers(rows: map<Place, Columns>, live: set<Row>) {
    forall row :: row in live ==> Holds(rows, row)
  }

  /** The archive shows the live rows and nothing else. */
  ghost predicate Exact(rows: map<Place, Columns>, live: set<Row>) {
    Covers(rows, live) && forall p :: p in rows ==> Occupied(live, p)
  }

  ghost predicate AllSound(live: set<Row>, ops: seq<Op>) {
    forall op :: op in ops ==> Sound(live, op)
  }

  lemma SoundKeepsRow(s: Store, live: set<Row>, op: Op, row: Row)
    requires Unique(live) && row in live && Sound(live, op)
    ensures Holds(s.rows, row) ==> Holds(Apply(s, op).rows, row)
    ensures op == UpsertOf(row) ==> Holds(Apply(s, op).rows, row)
  {
    if op.Upsert? {
      var other :| other in live && op == UpsertOf(other);
      assert PlaceOf(other) == PlaceOf(row) ==> other == row;
    } else if op.Reconcile? && op.table == TableOf(row) {
      SurvivesIffOccupied(live, PlaceOf(row));
    }
  }

  /** Sound writes keep a live row that is stored, and store one they upsert. */
  lemma {:induction false} SoundKeepsRows(s: Store, live: set<Row>, ops: seq<Op>, row: Row)
    requires Unique(live) && row in live && AllSound(live, ops)
    requires Holds(s.rows, row) || UpsertOf(row) in ops
    ensures Holds(ApplyAll(s, ops).rows, row)
    decreases ops
  {
    if ops != [] {
      SoundKeepsRow(s, live, ops[0], row);
      SoundKeepsRows(Apply(s, ops[0]), live, ops[1..], row);
    }
  }

  predicate Removes(op: Op, p: Place) {
    op == Delete(p) || (op.Reconcile? && op.table == p.table)
  }

  lemma SoundLeavesVacant(s: Store, live: set<Row>, op: Op, p: Place)
    requires Sound(live, op) && !Occupied(live, p)
    ensures p in Apply(s, op).rows <==> p in s.rows && !Removes(op, p)
  {
    if op.Upsert? {
      var row :| row in live && op == UpsertOf(row);
      assert PlaceOf(row) != p;
    } else if op.Reconcile? && op.table == p.table {
      SurvivesIffOccupied(live, p);
    }
  }

  /** A vacant place keeps its row exactly when no write removes it. */
  lemma {:induction false} VacantAfter(s: Store, live: set<Row>, ops: seq<Op>, p: Place)
    requires AllSound(live, ops) && !Occupied(live, p)
    ensures p in ApplyAll(s, ops).rows <==> p in s.rows && forall op :: op in ops ==> !Removes(op, p)
    decreases ops
  {
    if ops != [] {
      SoundLeavesVacant(s, live, ops[0], p);
      VacantAfter(Apply(s, ops[0]), live, ops[1..], p);
      assert ops == [ops[0]] + ops[1..];
    }
  }

  // ------------------------------------------------------------- one transaction

  /** The callbacks of a transaction that turns `before` into `after`, in any order. */
  ghost predicate Delivers(before: set<Row>, after: set<Row>, callbacks: seq<Callback>) {
    && (forall c :: c in callbacks && (c.Inserted? || c.Updated?) ==> c.row in after)
    && (forall c :: c in callbacks && c.Updated? ==> PlaceOf(c.was) == PlaceOf(c.row))
    && (forall c :: c in callbacks && c.Deleted? ==> c.row in before)
    && (forall row :: row in after && row !in before ==> Announced(callbacks, row))
    && (forall row :: row in before && row !in after ==> Withdrawn(callbacks, row))
  }

  ghost predicate Announced(callbacks: seq<Callback>, row: Row) {
    exists c :: c in callbacks && (c.Inserted? || c.Updated?) && c.row == row
  }

  ghost predicate Withdrawn(callbacks: seq<Callback>, row: Row) {
    exists c :: c in callbacks && ((c.Deleted? && c.row == row) || (c.Updated? && c.was == row))
  }

  /** Whatever the order of its callbacks, a transaction leaves every live row archived with its live columns. */
  lemma DeliveryCovers(s: Store, before: set<Row>, after: set<Row>, status: set<bool>, l: Listener,
                       callbacks: seq<Callback>)
    requires Unique(after) && Delivers(before, after, callbacks) && Covers(s.rows, before)
    ensures Covers(ApplyAll(s, ReactAll(after, status, l, callbacks).ops).rows, after)
  {
    var ops := ReactAll(after, status, l, callbacks).ops;
    ReactAllIsSound(after, status, l, callbacks);
    forall row | row in after ensures Holds(ApplyAll(s, ops).rows, row) {
      if row !in before {
        var c :| c in callbacks && (c.Inserted? || c.Updated?) && c.row == row;
        CallbackIsHeard(after, status, l, callbacks, c);
      }
      SoundKeepsRows(s, after, ops, row);
    }
  }

  /** A row that leaves the live table has its delete enqueued, when deleting is allowed. */
  lemma WithdrawnIsDeleted(before: set<Row>, after: set<Row>, status: set<bool>, l: Listener,
                           callbacks: seq<Callback>, row: Row)
    requires Delivers(before, after, callbacks) && CanDelete(status)
    requires row in before && !Occupied(after, PlaceOf(row))
    ensures Delete(PlaceOf(row)) in ReactAll(after, status, l, callbacks).ops
  {
    var c :| c in callbacks && ((c.Deleted? && c.row == row) || (c.Updated? && c.was == row));
    assert c.Updated? ==> PlaceOf(c.row) == PlaceOf(row);
    DeletedOp(after, status, row);
    CallbackIsHeard(after, status, l, callbacks, c);
  }

  /**
    While deleting is allowed, a transaction without a rising edge ends in an
    exact archive if and only if every archived row was live before it or is
    live after it: it removes what it withdraws, and nothing older.
  */
  lemma DeliveryIsExactIff(s: Store, before: set<Row>, after: set<Row>, status: set<bool>, l: Listener,
                           callbacks: seq<Callback>)
    requires Unique(after) && Delivers(before, after, callbacks) && Covers(s.rows, before)
    requires CanDelete(status) && l.canDelete
    ensures Exact(ApplyAll(s, ReactAll(after, status, l, callbacks).ops).rows, after) <==>
      forall p :: p in s.rows ==> Occupied(before, p) || Occupied(after, p)
  {
    var ops := ReactAll(after, status, l, callbacks).ops;
    DeliveryCovers(s, before, after, status, l, callbacks);
    ReactAllIsSound(after, status, l, callbacks);
    ReconcilesOnRisingEdge(after, status, l, callbacks);
    forall p: Place | !Occupied(after, p)
      ensures p in ApplyAll(s, ops).rows <==> p in s.rows && !Occupied(before, p)
    {
      VacantAfter(s, after, ops, p);
      if Occupied(before, p) {
        var row :| row in before && PlaceOf(row) == p;
        WithdrawnIsDeleted(before, after, status, l, callbacks, row);
        assert Removes(Delete(p), p);
      } else {
        DeletesWereLive(before, after, status, l, callbacks);
      }
    }
  }

  lemma {:induction false} DeletesWereLive(before: set<Row>, after: set<Row>, status: set<bool>, l: Listener,
                                           callbacks: seq<Callback>)
    requires forall c :: c in callbacks && c.Deleted? ==> c.row in before
    ensures forall op :: op in ReactAll(after, status, l, callbacks).ops && op.Delete? ==> Occupied(before, op.place)
  {
    if callbacks != [] {
      var n := |callbacks| - 1;
      DeletesWereLive(before, after, status, l, callbacks[..n]);
      var last := React(after, status, ReactAll(after, status, l, callbacks[..n]).listener, callbacks[n]);
      ReconcileAllMeans(after, status);
      if callbacks[n].Deleted? {
        DeletedOp(after, status, callbacks[n].row);
      }
    }
  }

  // ------------------------------------------------------------------ reconciling

  ghost predicate ReconcilesEverything(live: set<Row>, ops: seq<Op>) {
    forall t :: Reconcile(t, LiveKeys(live, t)) in ops
  }

  /** A reconcile of every table, anywhere among sound writes, ends in an exact archive. */
  lemma ReconcileIsExact(s: Store, live: set<Row>, ops: seq<Op>)
    requires Unique(live) && AllSound(live, ops) && ReconcilesEverything(live, ops)
    requires Covers(ApplyAll(s, ops).rows, live)
    ensures Exact(ApplyAll(s, ops).rows, live)
  {
    forall p | p in ApplyAll(s, ops).rows ensures Occupied(live, p) {
      if !Occupied(live, p) {
        VacantAfter(s, live, ops, p);
        assert Removes(Reconcile(p.table, LiveKeys(live, p.table)), p);
      }
    }
  }

  function PlacesOf(rows: map<Place, Columns>, t: Table): set<Place> {
    set p | p in rows && p.table == t
  }

  lemma {:induction false} DistinctKeysCount(places: set<Place>, t: Table, keys: set<string>)
    requires forall p :: p in places ==> p.table == t
    requires keys == set p | p in places :: KeyOf(p.key)
    ensures |keys| == |places|
    decreases |places|
  {
    if places != {} {
      var p :| p in places;
      forall q | q in places - {p} ensures KeyOf(q.key) != KeyOf(p.key) {
        if KeyOf(q.key) == KeyOf(p.key) {
          KeyOfIsInjective(t, q.key, p.key);
        }
      }
      DistinctKeysCount(places - {p}, t, keys - {KeyOf(p.key)});
    }
  }

  lemma ExactKeys(rows: map<Place, Columns>, live: set<Row>, t: Table)
    requires Exact(rows, live)
    ensures LiveKeys(live, t) == set p | p in PlacesOf(rows, t) :: KeyOf(p.key)
  {
    forall row | row in live && TableOf(row) == t ensures PlaceOf(row) in PlacesOf(rows, t) {
      assert Holds(rows, row);
    }
    forall p | p in PlacesOf(rows, t) ensures KeyOf(p.key) in LiveKeys(live, t) {
      SurvivesIffOccupied(live, p);
    }
    assert forall row :: LiveKey(row) == KeyOf(PlaceOf(row).key);
  }

  lemma {:induction false} StampIsLast(s: Store, live: set<Row>, ops: seq<Op>, t: Table)
    requires AllSound(live, ops)
    requires Reconcile(t, LiveKeys(live, t)) in ops ||
             (t in s.counts && s.counts[t] == |LiveKeys(live, t)|)
    ensures t in ApplyAll(s, ops).counts && ApplyAll(s, ops).counts[t] == |LiveKeys(live, t)|
    decreases ops
  {
    if ops != [] {
      assert ops == [ops[0]] + ops[1..] && Sound(live, ops[0]);
      StampIsLast(Apply(s, ops[0]), live, ops[1..], t);
    }
  }

  /** The row counts a reconcile stamps are the sizes of the archive tables. */
  lemma StampedCountIsTableSize(s: Store, live: set<Row>, ops: seq<Op>, t: Table)
    requires Unique(live) && AllSound(live, ops) && ReconcilesEverything(live, ops)
    requires Covers(ApplyAll(s, ops).rows, live)
    ensures t in ApplyAll(s, ops).counts
    ensures ApplyAll(s, ops).counts[t] == |PlacesOf(ApplyAll(s, ops).rows, t)|
  {
    ReconcileIsExact(s, live, ops);
    ExactKeys(ApplyAll(s, ops).rows, live, t);
    DistinctKeysCount(PlacesOf(ApplyAll(s, ops).rows, t), t, LiveKeys(live, t));
    StampIsLast(s, live, ops, t);
  }
}
