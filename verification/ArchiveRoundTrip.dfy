/** Replicate, drain, wipe, rebuild: what comes back. */
module ArchiveRoundTrip {
  import opened Wrappers
  import opened ArchiveRows
  import opened ArchiveReplication
  import opened ArchiveRuns
  import opened ArchiveRebuild

  lemma ArchivedKeepsPlace(row: Row)
    ensures PlaceOf(Archived(row)) == PlaceOf(row)
  {
  }

  /** Every row of an exact archive decodes, to the archived columns of the live row under its key. */
  lemma ExactDecodes(rows: map<Place, Columns>, live: set<Row>, p: Place)
    requires Exact(rows, live) && p in rows
    ensures Decode(p.table, rows[p]).Some?
    ensures exists row :: row in live && PlaceOf(row) == p && Decode(p.table, rows[p]) == Some(Archived(row))
  {
    var row :| row in live && PlaceOf(row) == p;
    assert Holds(rows, row);
    DecodeInvertsEncode(row);
  }

  lemma ExactDecodesAll(rows: map<Place, Columns>, live: set<Row>)
    requires Exact(rows, live)
    ensures Decodes(rows)
  {
    forall p | p in rows ensures Decode(p.table, rows[p]).Some? {
      ExactDecodes(rows, live, p);
    }
  }

  /** What a rebuild from an exact archive commits, in whatever order it read: each live row once, as archived. */
  lemma ReadsLiveRows(rows: map<Place, Columns>, live: set<Row>, places: seq<Place>, list: seq<Row>)
    requires Exact(rows, live) && Unique(live) && Reads(rows, ORDER, places, list)
    ensures DistinctPlaces(list)
    ensures forall row :: row in live ==> Archived(row) in list
    ensures forall r :: r in list ==> exists row :: row in live && r == Archived(row)
  {
    forall i | 0 <= i < |list|
      ensures PlaceOf(list[i]) == places[i] && exists row :: row in live && list[i] == Archived(row)
    {
      var p := places[i];
      assert p in places;
      ExactDecodes(rows, live, p);
      var row :| row in live && PlaceOf(row) == p && Decode(p.table, rows[p]) == Some(Archived(row));
      ArchivedKeepsPlace(row);
    }
    forall row | row in live ensures Archived(row) in list {
      var p := PlaceOf(row);
      assert Holds(rows, row);
      EveryTableIsRebuilt(p.table);
      assert p in places;
      var i :| 0 <= i < |places| && places[i] == p;
      DecodeInvertsEncode(row);
      assert list[i] == Archived(row);
    }
  }

  /** The module a rebuild leaves holds the archived columns of every live row, and no other row. */
  ghost predicate IsRebuilt(tables: map<Place, Row>, live: set<Row>) {
    && (forall row :: row in live ==> PlaceOf(row) in tables && tables[PlaceOf(row)] == Archived(row))
    && (forall p :: p in tables ==> Occupied(live, p))
  }

  lemma RebuildRestores(rows: map<Place, Columns>, live: set<Row>, places: seq<Place>, list: seq<Row>)
    requires Exact(rows, live) && Unique(live) && Reads(rows, ORDER, places, list)
    ensures IsRebuilt(Restored(map[], list), live)
  {
    ReadsLiveRows(rows, live, places, list);
    RestoredHolds(map[], list);
    forall row | row in live
      ensures PlaceOf(row) in Restored(map[], list) && Restored(map[], list)[PlaceOf(row)] == Archived(row)
    {
      ArchivedKeepsPlace(row);
    }
    forall p | p in Restored(map[], list) ensures Occupied(live, p) {
      var r :| r in list && PlaceOf(r) == p;
      var row :| row in live && r == Archived(row);
      ArchivedKeepsPlace(row);
    }
  }

  /**
    End to end, for every run of the worker: once the queue is drained after a
    rising edge, a rebuild from the archive that returns normally leaves a
    wiped module with exactly the live rows' archived columns.
  */
  lemma RoundTrip(worlds: seq<World>, events: seq<Event>, edge: nat, n: nat, places: seq<Place>, list: seq<Row>)
    requires IsRun(worlds, events) && edge < n < |worlds|
    requires TakesStep(worlds, events, edge) && RisingEdge(worlds[edge], events[edge])
    requires forall i :: edge < i <= n ==> worlds[i].listener.canDelete
    requires worlds[n].pending == [] && Reads(worlds[n].store.rows, ORDER, places, list)
    ensures IsRebuilt(Restored(map[], list), worlds[n].live)
  {
    ArchiveIsExact(worlds, events, edge, n);
    RunKeepsInv(worlds, events, n);
    RebuildRestores(worlds[n].store.rows, worlds[n].live, places, list);
  }

  /**
    The rebuild of an empty module from an exact archive: it returns normally if
    and only if no wait was disturbed, and then the module is rebuilt.
  */
  method RebuildExact(rows: map<Place, Columns>, ghost live: set<Row>, confirmed: ConfirmedRestore)
    returns (r: Result<(), Failure>)
    requires Exact(rows, live) && Unique(live)
    requires confirmed.target.Valid() && confirmed.target.committed == []
    requires confirmed.target.inFlight == None && confirmed.pending == None
    modifies confirmed`pending, confirmed.target
    ensures r.Ok? <==> Undisturbed(old(confirmed.target.log), confirmed.target.log)
    ensures r.Ok? ==> IsRebuilt(confirmed.target.tables, live)
  {
    ExactDecodesAll(rows, live);
    ghost var places, restored;
    r, places, restored := Run(rows, confirmed);
    if r.Ok? {
      assert Flatten(confirmed.target.committed) == restored by {
        assert Flatten(old(confirmed.target.committed)) == [];
      }
      RebuildRestores(rows, live, places, restored);
    }
  }

  predicate KeepsLockouts(live: set<Row>) {
    forall row :: row in live && row.User? ==> !row.suspended && row.minTokenGeneration == 0
  }

  /** The rebuilt rows are the live rows themselves exactly when no account carries a lockout or a token floor. */
  lemma RebuildIsIdentityIff(tables: map<Place, Row>, live: set<Row>)
    requires Unique(live) && IsRebuilt(tables, live)
    ensures tables.Values == live <==> KeepsLockouts(live)
  {
    if KeepsLockouts(live) {
      assert forall row :: row in live ==> Archived(row) == row;
      assert forall row :: row in live ==> tables[PlaceOf(row)] in tables.Values;
      forall row | row in tables.Values ensures row in live {
        RebuiltRow(tables, live, row);
      }
    } else {
      var row :| row in live && row.User? && (row.suspended || row.minTokenGeneration != 0);
      if row in tables.Values {
        RebuiltRow(tables, live, row);
      }
    }
  }

  lemma RebuiltRow(tables: map<Place, Row>, live: set<Row>, row: Row)
    requires IsRebuilt(tables, live) && row in tables.Values
    ensures exists r :: r in live && row == Archived(r)
  {
    var p :| p in tables && tables[p] == row;
    var r :| r in live && PlaceOf(r) == p;
  }
}
