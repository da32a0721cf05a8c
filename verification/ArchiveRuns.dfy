/**
  Whole runs of the archive worker: deliveries, reconnects and restarts on one
  side, a consumer that retries failed writes on the other.
*/
module ArchiveRuns {
  import opened Wrappers
  import opened ArchiveRows
  import opened ArchiveReplication

  /** The client cache, the connection's memory, the write queue and the archive. */
  datatype World = World(live: set<Row>, status: set<bool>, listener: Listener, pending: seq<Op>, store: Store)

  datatype Event =
    | Delivery(live: set<Row>, status: set<bool>, callbacks: seq<Callback>)
    | SubscriptionApplied
    | Reconnect
    | Restart
    | FailedTry(store: Store)
    | Write

  /** What the archive becomes once the queue is drained. */
  function Drained(w: World): Store {
    ApplyAll(w.store, w.pending)
  }

  ghost predicate Enabled(w: World, event: Event) {
    match event
    case Delivery(live, status, callbacks) =>
      Unique(live) && Delivers(w.live, live, callbacks) && (status != w.status ==> StatusChanged in callbacks)
    case SubscriptionApplied => !w.listener.subscribed
    case FailedTry(store) => w.pending != [] && PartlyApplied(w.store, w.pending[0], store)
    case Write => w.pending != []
    case _ => true
  }

  /** What the event makes the connection remember and enqueue. */
  function Heard(w: World, event: Event): Reaction {
    match event
    case Delivery(live, status, callbacks) => ReactAll(live, status, w.listener, callbacks)
    case SubscriptionApplied => WhenReady(w.live, w.status, w.listener.(subscribed := true))
    case Reconnect => Reaction(Listener(false, false), [])
    case Restart => Reaction(Listener(false, false), [])
    case _ => Reaction(w.listener, [])
  }

  function LiveAfter(w: World, event: Event): set<Row> {
    match event
    case Delivery(live, _, _) => live
    case Reconnect => {}
    case Restart => {}
    case _ => w.live
  }

  function StatusAfter(w: World, event: Event): set<bool> {
    match event
    case Delivery(_, status, _) => status
    case Reconnect => {}
    case Restart => {}
    case _ => w.status
  }

  function StoreAfter(w: World, event: Event): Store
    requires event.Write? ==> w.pending != []
  {
    match event
    case FailedTry(store) => store
    case Write => Apply(w.store, w.pending[0])
    case _ => w.store
  }

  function PendingAfter(w: World, event: Event): seq<Op>
    requires event.Write? ==> w.pending != []
  {
    match event
    case Restart => []
    case Write => w.pending[1..]
    case _ => w.pending + Heard(w, event).ops
  }

  function Next(w: World, event: Event): World
    requires event.Write? ==> w.pending != []
  {
    World(LiveAfter(w, event), StatusAfter(w, event), Heard(w, event).listener, PendingAfter(w, event),
          StoreAfter(w, event))
  }

  /** A worker starts unconnected, with an empty queue and any archive. */
  predicate IsStart(w: World) {
    w.live == {} && w.status == {} && w.listener == Listener(false, false) && w.pending == []
  }

  ghost predicate TakesStep(worlds: seq<World>, events: seq<Event>, n: nat)
    requires n < |events| && |worlds| == |events| + 1
  {
    Enabled(worlds[n], events[n]) && worlds[n + 1] == Next(worlds[n], events[n])
  }

  ghost predicate IsRun(worlds: seq<World>, events: seq<Event>) {
    && |worlds| == |events| + 1
    && IsStart(worlds[0])
    && forall n :: 0 <= n < |events| ==> TakesStep(worlds, events, n)
  }

  // ---------------------------------------------------------------- one step

  /** The consumer never changes what the queue will make of the archive. */
  lemma ConsumerKeepsDrained(w: World, event: Event)
    requires Enabled(w, event) && (event.FailedTry? || event.Write?)
    ensures Drained(Next(w, event)) == Drained(w)
  {
    if event.FailedTry? {
      RetryRefinesOneRun(w.store, w.pending[0], event.store);
      assert PendingAfter(w, event) == w.pending;
    }
  }

  lemma HeardIsAppended(w: World, event: Event)
    requires Enabled(w, event) && !event.FailedTry? && !event.Write? && !event.Restart?
    ensures Drained(Next(w, event)) == ApplyAll(Drained(w), Heard(w, event).ops)
  {
    ApplyAllConcat(w.store, w.pending, Heard(w, event).ops);
  }

  /** A connection knows whether deleting is allowed exactly since its subscription. */
  ghost predicate Inv(w: World) {
    && Unique(w.live)
    && w.listener.canDelete == (w.listener.subscribed && CanDelete(w.status))
    && Covers(Drained(w).rows, w.live)
  }

  lemma HeardIsSound(w: World, event: Event)
    requires Inv(w) && Enabled(w, event)
    ensures AllSound(LiveAfter(w, event), Heard(w, event).ops)
    ensures forall op :: op in Heard(w, event).ops && !op.Upsert? ==> CanDelete(StatusAfter(w, event))
  {
    if event.Delivery? {
      ReactAllIsSound(event.live, event.status, w.listener, event.callbacks);
    }
    ReconcileAllMeans(w.live, w.status);
  }

  lemma SoundKeepsCover(s: Store, live: set<Row>, ops: seq<Op>)
    requires Unique(live) && AllSound(live, ops) && Covers(s.rows, live)
    ensures Covers(ApplyAll(s, ops).rows, live)
  {
    forall row | row in live ensures Holds(ApplyAll(s, ops).rows, row) {
      SoundKeepsRows(s, live, ops, row);
    }
  }

  lemma StepKeepsInv(w: World, event: Event)
    requires Inv(w) && Enabled(w, event)
    ensures Inv(Next(w, event))
  {
    if event.FailedTry? || event.Write? {
      ConsumerKeepsDrained(w, event);
    } else if event.Delivery? {
      HeardIsAppended(w, event);
      ReconcilesOnRisingEdge(event.live, event.status, w.listener, event.callbacks);
      DeliveryCovers(Drained(w), w.live, event.live, event.status, w.listener, event.callbacks);
    } else if event.SubscriptionApplied? {
      HeardIsAppended(w, event);
      HeardIsSound(w, event);
      SoundKeepsCover(Drained(w), w.live, Heard(w, event).ops);
    }
  }

  /** Deleting just became known to be allowed, over a snapshot that is not empty. */
  ghost predicate RisingEdge(w: World, event: Event)
    requires Enabled(w, event)
  {
    !w.listener.canDelete && Next(w, event).listener.canDelete && LiveAfter(w, event) != {}
  }

  lemma RisingEdgeReconciles(w: World, event: Event)
    requires Inv(w) && Enabled(w, event) && RisingEdge(w, event)
    ensures event.Delivery? || event.SubscriptionApplied?
    ensures ReconcilesEverything(LiveAfter(w, event), Heard(w, event).ops)
  {
    StepKeepsInv(w, event);
    ReconcileAllMeans(LiveAfter(w, event), StatusAfter(w, event));
    if event.Delivery? {
      ReconcilesOnRisingEdge(event.live, event.status, w.listener, event.callbacks);
    }
  }

  ghost predicate CountsAreTrue(s: Store) {
    forall t :: t in s.counts && s.counts[t] == |PlacesOf(s.rows, t)|
  }

  lemma RisingEdgeIsExact(w: World, event: Event)
    requires Inv(w) && Enabled(w, event) && RisingEdge(w, event)
    ensures Exact(Drained(Next(w, event)).rows, Next(w, event).live)
    ensures CountsAreTrue(Drained(Next(w, event)))
  {
    StepKeepsInv(w, event);
    RisingEdgeReconciles(w, event);
    HeardIsAppended(w, event);
    HeardIsSound(w, event);
    var ops := Heard(w, event).ops;
    ReconcileIsExact(Drained(w), LiveAfter(w, event), ops);
    forall t ensures t in Drained(Next(w, event)).counts &&
      Drained(Next(w, event)).counts[t] == |PlacesOf(Drained(Next(w, event)).rows, t)|
    {
      StampedCountIsTableSize(Drained(w), LiveAfter(w, event), ops, t);
    }
  }

  lemma ReadyStepKeepsExact(w: World, event: Event)
    requires Inv(w) && Enabled(w, event) && Exact(Drained(w).rows, w.live)
    requires w.listener.canDelete && Next(w, event).listener.canDelete
    ensures Exact(Drained(Next(w, event)).rows, Next(w, event).live)
  {
    StepKeepsInv(w, event);
    if event.FailedTry? || event.Write? {
      ConsumerKeepsDrained(w, event);
    } else if event.Delivery? {
      HeardIsAppended(w, event);
      DeliveryIsExactIff(Drained(w), w.live, event.live, event.status, w.listener, event.callbacks);
    }
  }

  // ---------------------------------------------------------------- whole runs

  lemma {:induction false} RunKeepsInv(worlds: seq<World>, events: seq<Event>, n: nat)
    requires IsRun(worlds, events) && n < |worlds|
    ensures Inv(worlds[n])
  {
    if n > 0 {
      RunKeepsInv(worlds, events, n - 1);
      assert TakesStep(worlds, events, n - 1);
      StepKeepsInv(worlds[n - 1], events[n - 1]);
    }
  }

  /**
    Every run, every moment, across reconnects that leave old writes in the
    queue: draining the queue gives each live row its live columns.
  */
  lemma ArchiveCoversLive(worlds: seq<World>, events: seq<Event>, n: nat, row: Row)
    requires IsRun(worlds, events) && n < |worlds| && row in worlds[n].live
    ensures PlaceOf(row) in Drained(worlds[n]).rows && Drained(worlds[n]).rows[PlaceOf(row)] == Encode(row)
  {
    RunKeepsInv(worlds, events, n);
  }

  /** From a rising edge over a snapshot that is not empty, and while deleting stays allowed, the archive is exact. */
  lemma {:induction false} ArchiveIsExact(worlds: seq<World>, events: seq<Event>, edge: nat, n: nat)
    requires IsRun(worlds, events) && edge < n < |worlds|
    requires TakesStep(worlds, events, edge) && RisingEdge(worlds[edge], events[edge])
    requires forall i :: edge < i <= n ==> worlds[i].listener.canDelete
    ensures Exact(Drained(worlds[n]).rows, worlds[n].live)
  {
    var w, event := worlds[n - 1], events[n - 1];
    RunKeepsInv(worlds, events, n - 1);
    assert TakesStep(worlds, events, n - 1);
    assert worlds[n] == Next(w, event);
    if n == edge + 1 {
      RisingEdgeIsExact(w, event);
    } else {
      ArchiveIsExact(worlds, events, edge, n - 1);
      assert w.listener.canDelete && worlds[n].listener.canDelete;
      ReadyStepKeepsExact(w, event);
    }
  }

  /** The counts a rising edge stamps are the true table sizes once its own writes are through. */
  lemma StampedCountsAreTrue(worlds: seq<World>, events: seq<Event>, n: nat, t: Table)
    requires IsRun(worlds, events) && n < |events|
    requires TakesStep(worlds, events, n) && RisingEdge(worlds[n], events[n])
    ensures t in Drained(worlds[n + 1]).counts
    ensures Drained(worlds[n + 1]).counts[t] == |PlacesOf(Drained(worlds[n + 1]).rows, t)|
  {
    RunKeepsInv(worlds, events, n);
    RisingEdgeIsExact(worlds[n], events[n]);
  }

  /** Without permission nothing that removes rows is enqueued, and from an empty snapshot no reconcile is. */
  lemma DeletionIsGated(worlds: seq<World>, events: seq<Event>, n: nat, op: Op)
    requires IsRun(worlds, events) && n < |events| && op in Heard(worlds[n], events[n]).ops
    ensures !op.Upsert? ==> CanDelete(worlds[n + 1].status)
    ensures op.Reconcile? ==> worlds[n + 1].live != {}
    ensures op.Delete? ==> !Occupied(worlds[n + 1].live, op.place)
  {
    RunKeepsInv(worlds, events, n);
    assert TakesStep(worlds, events, n);
    HeardIsSound(worlds[n], events[n]);
    assert Sound(worlds[n + 1].live, op);
  }

  ghost predicate RefusedEdge(w: World, event: Event)
    requires Enabled(w, event)
  {
    !w.listener.canDelete && Next(w, event).listener.canDelete && LiveAfter(w, event) == {}
  }

  /**
    A reconcile refused for an empty snapshot is not made up for: until
    deleting is forbidden again, no step of the run enqueues a reconcile.
  */
  lemma RefusedReconcileIsNotRetried(worlds: seq<World>, events: seq<Event>, edge: nat, n: nat, op: Op)
    requires IsRun(worlds, events) && edge <= n < |events|
    requires TakesStep(worlds, events, edge) && RefusedEdge(worlds[edge], events[edge])
    requires forall i :: edge < i <= n + 1 ==> worlds[i].listener.canDelete
    requires op in Heard(worlds[n], events[n]).ops
    ensures !op.Reconcile?
  {
    assert TakesStep(worlds, events, n);
    DeletionIsGated(worlds, events, n, op);
    if n > edge && events[n].Delivery? {
      ReconcilesOnRisingEdge(events[n].live, events[n].status, worlds[n].listener, events[n].callbacks);
    }
  }

  lemma OccupiedIsArchived(w: World, p: Place)
    requires Inv(w) && Occupied(w.live, p)
    ensures p in Drained(w).rows
  {
    var row :| row in w.live && PlaceOf(row) == p;
    assert Holds(Drained(w).rows, row);
  }

  /** Without a reconcile a vacant place stays archived exactly when it was archived and vacant before. */
  lemma StepKeepsStale(w: World, event: Event, p: Place)
    requires Inv(w) && Enabled(w, event) && Next(w, event).listener.canDelete
    requires w.listener.canDelete || RefusedEdge(w, event)
    requires !Occupied(LiveAfter(w, event), p)
    ensures p in Drained(Next(w, event)).rows <==> p in Drained(w).rows && !Occupied(w.live, p)
  {
    match event
    case FailedTry(_) => ConsumerKeepsDrained(w, event);
    case Write => ConsumerKeepsDrained(w, event);
    case Delivery(_, _, _) =>
      HeardIsAppended(w, event);
      DeliveryKeepsStale(w, event, p);
    case SubscriptionApplied =>
      HeardIsAppended(w, event);
      ReconcileAllMeans(w.live, w.status);
    case Reconnect =>
    case Restart =>
  }

  lemma DeliveryKeepsStale(w: World, event: Event, p: Place)
    requires Inv(w) && Enabled(w, event) && event.Delivery? && Next(w, event).listener.canDelete
    requires w.listener.canDelete || RefusedEdge(w, event)
    requires !Occupied(event.live, p)
    ensures p in ApplyAll(Drained(w), Heard(w, event).ops).rows <==> p in Drained(w).rows && !Occupied(w.live, p)
  {
    var ops := Heard(w, event).ops;
    HeardIsSound(w, event);
    ReconcilesOnRisingEdge(event.live, event.status, w.listener, event.callbacks);
    VacantAfter(Drained(w), event.live, ops, p);
    assert forall op :: op in ops && op.Reconcile? ==> Sound(event.live, op);
    if Occupied(w.live, p) {
      var row :| row in w.live && PlaceOf(row) == p;
      WithdrawnIsDeleted(w.live, event.live, event.status, w.listener, event.callbacks, row);
      assert Removes(Delete(p), p);
    } else {
      DeletesWereLive(w.live, event.live, event.status, w.listener, event.callbacks);
    }
  }

  /** Some live row had the place at a moment from `edge` to `n`. */
  ghost predicate EverOccupied(worlds: seq<World>, edge: nat, n: nat, p: Place)
    requires n < |worlds|
  {
    exists i :: edge <= i <= n && Occupied(worlds[i].live, p)
  }

  /**
    What the archive holds after a refused reconcile, while deleting stays
    allowed: the live rows, and what it held at the refusal of places no row has
    taken since.
  */
  lemma {:induction false} StaleRowsStay(worlds: seq<World>, events: seq<Event>, edge: nat, n: nat, p: Place)
    requires IsRun(worlds, events) && edge <= n < |worlds| && edge < |events|
    requires TakesStep(worlds, events, edge) && RefusedEdge(worlds[edge], events[edge])
    requires forall i :: edge < i <= n ==> worlds[i].listener.canDelete
    ensures p in Drained(worlds[n]).rows <==>
      Occupied(worlds[n].live, p) || (p in Drained(worlds[edge]).rows && !EverOccupied(worlds, edge, n, p))
    decreases n
  {
    RunKeepsInv(worlds, events, n);
    if Occupied(worlds[n].live, p) {
      OccupiedIsArchived(worlds[n], p);
    } else if n > edge {
      StaleRowsStay(worlds, events, edge, n - 1, p);
      StaleStep(worlds, events, edge, n - 1, p);
      assert EverOccupied(worlds, edge, n, p) <==> EverOccupied(worlds, edge, n - 1, p);
    }
  }

  lemma StaleStep(worlds: seq<World>, events: seq<Event>, edge: nat, n: nat, p: Place)
    requires IsRun(worlds, events) && edge <= n < |events|
    requires TakesStep(worlds, events, edge) && RefusedEdge(worlds[edge], events[edge])
    requires worlds[n + 1].listener.canDelete && (n > edge ==> worlds[n].listener.canDelete)
    requires !Occupied(worlds[n + 1].live, p)
    ensures p in Drained(worlds[n + 1]).rows <==> p in Drained(worlds[n]).rows && !Occupied(worlds[n].live, p)
  {
    RunKeepsInv(worlds, events, n);
    assert TakesStep(worlds, events, n);
    StepKeepsStale(worlds[n], events[n], p);
  }

  /**
    A refused reconcile, by the subscription or by a delivery, costs nothing if
    and only if each archived place was live at the refusal or has been taken
    since: at every later moment, while deleting stays allowed, the drained
    archive is exact exactly then.
  */
  lemma RefusedEdgeIsExactIff(worlds: seq<World>, events: seq<Event>, edge: nat, n: nat)
    requires IsRun(worlds, events) && edge < n < |worlds|
    requires TakesStep(worlds, events, edge) && RefusedEdge(worlds[edge], events[edge])
    requires forall i :: edge < i <= n ==> worlds[i].listener.canDelete
    ensures Exact(Drained(worlds[n]).rows, worlds[n].live) <==>
      forall p :: p in Drained(worlds[edge]).rows ==> EverOccupied(worlds, edge, n, p)
  {
    RunKeepsInv(worlds, events, n);
    forall p ensures p in Drained(worlds[n]).rows <==>
      Occupied(worlds[n].live, p) || (p in Drained(worlds[edge]).rows && !EverOccupied(worlds, edge, n, p))
    {
      StaleRowsStay(worlds, events, edge, n, p);
    }
    assert forall p :: Occupied(worlds[n].live, p) ==> EverOccupied(worlds, edge, n, p);
  }

  /** The module was emptied while the worker was away: whatever the archive holds, it keeps. */
  lemma RefusalCanKeepStaleRows(store: Store) returns (worlds: seq<World>, events: seq<Event>)
    requires store.rows != map[]
    ensures IsRun(worlds, events) && |events| == 2 && worlds[0].store == store
    ensures TakesStep(worlds, events, 1) && RefusedEdge(worlds[1], events[1])
    ensures Drained(worlds[2]) == store && !Exact(Drained(worlds[2]).rows, worlds[2].live)
  {
    var unconnected := World({}, {}, Listener(false, false), [], store);
    events := [Delivery({}, {true}, [StatusChanged]), SubscriptionApplied];
    var told := unconnected.(status := {true});
    worlds := [unconnected, told, told.(listener := Listener(true, true))];
    ReconcileAllMeans({}, {true});
    assert ReactAll({}, {true}, Listener(false, false), [StatusChanged][..0]) == Reaction(Listener(false, false), []);
    assert TakesStep(worlds, events, 0) && TakesStep(worlds, events, 1);
    var p :| p in store.rows;
    assert !Occupied({}, p);
  }

  // ------------------------------------------------------------------ a first connection

  lemma {:induction false} Announcement(live: set<Row>) returns (callbacks: seq<Callback>)
    ensures Delivers({}, live, callbacks) && StatusChanged in callbacks
    decreases live
  {
    if live == {} {
      callbacks := [StatusChanged];
    } else {
      var row :| row in live;
      var rest := Announcement(live - {row});
      callbacks := rest + [Inserted(row)];
      forall r | r in live ensures Announced(callbacks, r) {
        if r == row {
          assert Inserted(row) in callbacks;
        } else {
          assert Announced(rest, r);
          var c :| c in rest && (c.Inserted? || c.Updated?) && c.row == r;
          assert c in callbacks;
        }
      }
    }
  }

  /**
    Whatever an archive holds, a worker that connects to a module with at least
    one row, and is allowed to delete, makes it exact: the snapshot arrives, the
    subscription is applied, and the drained queue leaves the live table.
  */
  lemma FirstConnectionConverges(store: Store, live: set<Row>) returns (worlds: seq<World>, events: seq<Event>)
    requires Unique(live) && live != {}
    ensures IsRun(worlds, events) && |events| == 2 && worlds[0].store == store
    ensures worlds[2].live == live && Exact(Drained(worlds[2]).rows, live)
  {
    var unconnected := World({}, {}, Listener(false, false), [], store);
    var callbacks := Announcement(live);
    events := [Delivery(live, {true}, callbacks), SubscriptionApplied];
    var told := Next(unconnected, events[0]);
    worlds := [unconnected, told, Next(told, events[1])];
    ReconcilesOnRisingEdge(live, {true}, Listener(false, false), callbacks);
    assert TakesStep(worlds, events, 0) && TakesStep(worlds, events, 1);
    ArchiveIsExact(worlds, events, 1, 2);
  }
}
