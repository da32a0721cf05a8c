/**
  The rebuild of a wiped module from the archive: reading the tables back,
  submitting them in batches, and one batch in flight at a time.
*/
module ArchiveRebuild {
  import opened Wrappers
  import opened ArchiveRows
  import opened ArchiveReplication

  const BATCH_SIZE := 500

  // --------------------------------------------------------------- the reducers

  /** `archive_restore_*`: every row replaces the row under its key, or is inserted. */
  function Restored(tables: map<Place, Row>, rows: seq<Row>): map<Place, Row>
    decreases rows
  {
    if rows == [] then tables else Restored(tables[PlaceOf(rows[0]) := rows[0]], rows[1..])
  }

  lemma {:induction false} RestoredConcat(tables: map<Place, Row>, xs: seq<Row>, ys: seq<Row>)
    ensures Restored(tables, xs + ys) == Restored(Restored(tables, xs), ys)
    decreases xs
  {
    if xs == [] {
      assert xs + ys == ys;
    } else {
      assert (xs + ys)[1..] == xs[1..] + ys;
      RestoredConcat(tables[PlaceOf(xs[0]) := xs[0]], xs[1..], ys);
    }
  }

  ghost predicate DistinctPlaces(rows: seq<Row>) {
    forall i, j :: 0 <= i < j < |rows| ==> PlaceOf(rows[i]) != PlaceOf(rows[j])
  }

  lemma {:induction false} RestoredHolds(tables: map<Place, Row>, rows: seq<Row>)
    requires DistinctPlaces(rows)
    ensures forall row :: row in rows ==>
      PlaceOf(row) in Restored(tables, rows) && Restored(tables, rows)[PlaceOf(row)] == row
    ensures forall p :: p in Restored(tables, rows) ==> p in tables || exists row :: row in rows && PlaceOf(row) == p
    ensures forall p :: p in tables && (forall row :: row in rows ==> PlaceOf(row) != p) ==>
      p in Restored(tables, rows) && Restored(tables, rows)[p] == tables[p]
    decreases rows
  {
    if rows != [] {
      RestoredHolds(tables[PlaceOf(rows[0]) := rows[0]], rows[1..]);
      assert rows == [rows[0]] + rows[1..];
      assert forall row :: row in rows[1..] ==> PlaceOf(row) != PlaceOf(rows[0]);
    }
  }

  // ----------------------------------------------------------------- the batches

  function Batches(rows: seq<Row>): (batches: seq<seq<Row>>)
    ensures forall b :: b in batches ==> 0 < |b| <= BATCH_SIZE
    decreases |rows|
  {
    if rows == [] then []
    else if |rows| <= BATCH_SIZE then [rows]
    else [rows[..BATCH_SIZE]] + Batches(rows[BATCH_SIZE..])
  }

  function Flatten(batches: seq<seq<Row>>): seq<Row> {
    if batches == [] then [] else batches[0] + Flatten(batches[1..])
  }

  lemma {:induction false} FlattenConcat(xs: seq<seq<Row>>, ys: seq<seq<Row>>)
    ensures Flatten(xs + ys) == Flatten(xs) + Flatten(ys)
  {
    if xs == [] {
      assert xs + ys == ys;
    } else {
      assert (xs + ys)[1..] == xs[1..] + ys;
      FlattenConcat(xs[1..], ys);
    }
  }

  lemma FlattenPush(xs: seq<seq<Row>>, y: seq<Row>)
    ensures Flatten(xs + [y]) == Flatten(xs) + y
  {
    FlattenConcat(xs, [y]);
    assert [y][1..] == [];
    assert Flatten([y]) == y;
  }

  /** The batches are the list, cut into as few pieces of at most 500 as can be. */
  lemma {:induction false} BatchesConcatenate(rows: seq<Row>)
    ensures Flatten(Batches(rows)) == rows
    ensures |Batches(rows)| == (|rows| + 499) / 500
    ensures forall b :: b in Batches(rows) ==> 0 < |b| <= 500
    decreases |rows|
  {
    if |rows| > BATCH_SIZE {
      var batches := Batches(rows);
      BatchesConcatenate(rows[BATCH_SIZE..]);
      assert batches[0] == rows[..BATCH_SIZE] && batches[1..] == Batches(rows[BATCH_SIZE..]);
      assert rows[..BATCH_SIZE] + rows[BATCH_SIZE..] == rows;
    } else if rows != [] {
      assert Flatten([rows]) == rows + Flatten([]);
    }
  }

  function BatchAt(rows: seq<Row>, i: nat): seq<Row>
    requires i < |rows|
  {
    rows[i..i + if |rows| - i < BATCH_SIZE then |rows| - i else BATCH_SIZE]
  }

  lemma {:induction false} BatchIsSlice(rows: seq<Row>, k: nat)
    ensures k < |Batches(rows)| <==> k * BATCH_SIZE < |rows|
    ensures k < |Batches(rows)| ==> Batches(rows)[k] == BatchAt(rows, k * BATCH_SIZE)
  {
    if k > 0 && |rows| > BATCH_SIZE {
      var rest := rows[BATCH_SIZE..];
      BatchIsSlice(rest, k - 1);
      assert k < |Batches(rows)| ==> BatchAt(rest, (k - 1) * BATCH_SIZE) == BatchAt(rows, k * BATCH_SIZE);
    }
  }

  lemma NextBatch(rows: seq<Row>, k: nat)
    requires k * BATCH_SIZE < |rows|
    ensures k < |Batches(rows)| && Batches(rows)[k] == BatchAt(rows, k * BATCH_SIZE)
    ensures Batches(rows)[..k + 1] == Batches(rows)[..k] + [BatchAt(rows, k * BATCH_SIZE)]
  {
    BatchIsSlice(rows, k);
  }

  // ------------------------------------------------------- one batch in flight

  datatype Status = Committed | Failed(reason: string) | OutOfEnergy

  datatype Failure = AlreadyPending | NotCommitted(status: Status) | TimedOut | Cancelled | BadColumns

  /** What one look at the connection, the deadline or the caller's token shows. */
  datatype Signal = Nothing | Outcome(status: Status) | DeadlinePassed | CallerCancelled

  /** What a wait that ends with this signal returns. */
  predicate Answers(signal: Signal, r: Result<(), Failure>) {
    match signal
    case Nothing => false
    case Outcome(status) => r == (if status == Committed then Ok(()) else Err(NotCommitted(status)))
    case DeadlinePassed => r == Err(TimedOut)
    case CallerCancelled => r == Err(Cancelled)
  }

  /** Between the two logs no batch was refused, no deadline passed and nobody cancelled. */
  ghost predicate Undisturbed(before: seq<Signal>, after: seq<Signal>) {
    && before <= after
    && forall i :: |before| <= i < |after| ==> after[i] == Nothing || after[i] == Outcome(Committed)
  }

  ghost predicate Calm(before: seq<Signal>, after: seq<Signal>) {
    before <= after && forall i :: |before| <= i < |after| ==> after[i] == Nothing
  }

  ghost predicate Heard(before: seq<Signal>, after: seq<Signal>, status: Status) {
    && before < after && after[|after| - 1] == Outcome(status)
    && (Undisturbed(before, after) <==> status == Committed)
  }

  lemma CalmThen(before: seq<Signal>, after: seq<Signal>)
    requires Calm(before, after)
    ensures Calm(before, after + [Nothing])
    ensures !Undisturbed(before, after + [DeadlinePassed]) && !Undisturbed(before, after + [CallerCancelled])
    ensures forall status :: Heard(before, after + [Outcome(status)], status)
  {
    forall signal: Signal
      ensures Undisturbed(before, after + [signal]) <==> signal == Nothing || signal == Outcome(Committed)
    {
      assert (after + [signal])[|after|] == signal;
    }
  }

  /** The last thing seen decides what is returned. */
  ghost predicate EndsTheWait(before: seq<Signal>, after: seq<Signal>, r: Result<(), Failure>) {
    before < after && Answers(after[|after| - 1], r)
  }

  lemma UndisturbedSplits(a: seq<Signal>, b: seq<Signal>, c: seq<Signal>)
    requires Undisturbed(a, b) && b <= c
    ensures Undisturbed(a, c) <==> Undisturbed(b, c)
  {
  }

  /**
    The wiped module behind its connection: its tables, the call it has
    received, the batches it committed, and the log of all the worker has seen
    while waiting for it.
  */
  class Module {
    var tables: map<Place, Row>
    var inFlight: Option<seq<Row>>
    var committed: seq<seq<Row>>
    var patience: nat
    var log: seq<Signal>

    constructor ()
      ensures tables == map[] && inFlight == None && committed == [] && log == []
    {
      tables := map[];
      inFlight := None;
      committed := [];
      patience := 0;
      log := [];
    }

    /** Sets the deadline, some number of polls ahead. */
    method SetDeadline()
      modifies this`patience
    {
      patience := *;
    }

    /** Looks at the caller's token and, once it is set, at the deadline. */
    method Look(deadlineSet: bool) returns (signal: Signal)
      modifies this`patience, this`log
      ensures signal == Nothing || signal == CallerCancelled || (deadlineSet && signal == DeadlinePassed)
      ensures signal == Nothing ==> log == old(log)
      ensures signal != Nothing ==> log == old(log) + [signal]
      ensures signal == Nothing && deadlineSet ==> patience < old(patience)
    {
      signal := Nothing;
      if * {
        signal := CallerCancelled;
      } else if deadlineSet && patience == 0 {
        signal := DeadlinePassed;
      } else if deadlineSet {
        patience := patience - 1;
      }
      if signal != Nothing {
        log := log + [signal];
      }
    }

    ghost predicate Valid()
      reads this
    {
      tables == Restored(map[], Flatten(committed))
    }

    /** A call may only be sent while none is in flight. */
    method Submit(batch: seq<Row>)
      requires inFlight == None
      modifies this`inFlight
      ensures inFlight == Some(batch)
    {
      inFlight := Some(batch);
    }

    method Commit()
      requires Valid() && inFlight.Some?
      modifies this`tables, this`inFlight, this`committed
      ensures Valid() && inFlight == None && committed == old(committed) + [old(inFlight).value]
    {
      var batch := inFlight.value;
      FlattenPush(committed, batch);
      RestoredConcat(map[], Flatten(committed), batch);
      tables := Restored(tables, batch);
      committed := committed + [batch];
      inFlight := None;
    }

    /** One poll: the call may still run, commit, fail, and its outcome may or may not come back. */
    method Tick() returns (status: Option<Status>)
      requires Valid()
      modifies this`tables, this`inFlight, this`committed, this`log
      ensures Valid() && log == old(log) + [if status.Some? then Outcome(status.value) else Nothing]
      ensures old(inFlight) == None ==> status == None && inFlight == None
      ensures inFlight != old(inFlight) ==> inFlight == None
      ensures status.Some? ==> inFlight == None
      ensures committed == old(committed) ||
              (old(inFlight).Some? && inFlight == None && committed == old(committed) + [old(inFlight).value])
      ensures status == Some(Committed) ==> committed != old(committed)
    {
      status := None;
      if inFlight.Some? {
        if * {
          Commit();
          if * {
            status := Some(Committed);
          }
        } else if * {
          inFlight := None;
          if * {
            var reason: string := *;
            status := Some(Failed(reason));
          } else if * {
            status := Some(OutOfEnergy);
          }
        }
      }
      log := log + [if status.Some? then Outcome(status.value) else Nothing];
    }
  }

  /** The batches committed in between are the first ones of the list, in order. */
  ghost predicate CommittedSome(before: seq<seq<Row>>, after: seq<seq<Row>>, batches: seq<seq<Row>>) {
    exists n :: 0 <= n <= |batches| && after == before + batches[..n]
  }

  lemma StoppedAt(before: seq<seq<Row>>, after: seq<seq<Row>>, batches: seq<seq<Row>>, k: nat)
    requires k < |batches|
    requires after == before + batches[..k] || after == before + batches[..k] + [batches[k]]
    ensures CommittedSome(before, after, batches)
  {
    assert batches[..k + 1] == batches[..k] + [batches[k]];
    assert before + batches[..k] + [batches[k]] == before + batches[..k + 1];
  }

  datatype Completion = Waiting | Done(status: Status)

  /** Waits for the commit of one batch; only a commit acknowledges it. */
  class ConfirmedRestore {
    const target: Module
    var pending: Option<Completion>

    constructor (target: Module)
      ensures this.target == target && pending == None
    {
      this.target := target;
      this.pending := None;
    }

    /** The first outcome of the pending batch is kept; without a pending batch it is dropped. */
    method Complete(status: Status)
      modifies this`pending
      ensures pending == if old(pending) == Some(Waiting) then Some(Done(status)) else old(pending)
    {
      if pending.Some? && pending.value.Waiting? {
        pending := Some(Done(status));
      }
    }

    /**
      Returns normally if and only if the batch was acknowledged as committed:
      what the wait saw last decides the answer. A failed, lost or late outcome
      is an error, and may have committed.
    */
    method Execute(batch: seq<Row>) returns (r: Result<(), Failure>)
      requires target.Valid() && target.inFlight == None
      modifies this`pending, target
      ensures target.Valid()
      ensures old(pending).Some? ==>
        pending == old(pending) && target.committed == old(target.committed) &&
        r == Err(if target.log == old(target.log) then AlreadyPending else Cancelled)
      ensures old(pending).None? ==> pending == None && EndsTheWait(old(target.log), target.log, r)
      ensures old(pending).None? ==> (r.Ok? <==> Undisturbed(old(target.log), target.log))
      ensures r.Ok? ==> target.inFlight == None && target.committed == old(target.committed) + [batch]
      ensures r.Err? ==>
        target.committed == old(target.committed) || target.committed == old(target.committed) + [batch]
    {
      var signal := target.Look(false);
      if signal != Nothing {
        return Err(Cancelled);
      }
      if pending.Some? {
        return Err(AlreadyPending);
      }
      pending := Some(Waiting);
      target.SetDeadline();
      target.Submit(batch);
      while pending == Some(Waiting)
        invariant target.Valid() && pending.Some?
        invariant pending == Some(Waiting) ==> Calm(old(target.log), target.log)
        invariant pending.value.Done? ==> Heard(old(target.log), target.log, pending.value.status)
        invariant target.inFlight == None || target.inFlight == Some(batch)
        invariant target.committed == old(target.committed) ||
                  (target.inFlight == None && target.committed == old(target.committed) + [batch])
        invariant pending.value.Done? ==> target.inFlight == None
        invariant pending == Some(Done(Committed)) ==> target.committed == old(target.committed) + [batch]
        decreases target.patience
      {
        ghost var before := target.log;
        CalmThen(old(target.log), before);
        signal := target.Look(true);
        if signal != Nothing {
          pending := None;
          return Err(if signal == CallerCancelled then Cancelled else TimedOut);
        }
        var status := target.Tick();
        if status.Some? {
          Complete(status.value);
        }
      }
      var outcome := pending.value.status;
      pending := None;
      r := if outcome.Committed? then Ok(()) else Err(NotCommitted(outcome));
    }

    /**
      Returns normally if and only if nothing went wrong while waiting, and then
      every batch of the list committed, in order, once.
    */
    method SubmitAll(rows: seq<Row>) returns (r: Result<(), Failure>)
      requires target.Valid() && target.inFlight == None && pending == None
      modifies this`pending, target
      ensures target.Valid() && pending == None
      ensures r.Ok? <==> Undisturbed(old(target.log), target.log)
      ensures r.Err? ==> EndsTheWait(old(target.log), target.log, r)
      ensures r.Ok? ==> target.inFlight == None && target.committed == old(target.committed) + Batches(rows)
      ensures r.Err? ==> CommittedSome(old(target.committed), target.committed, Batches(rows))
    {
      var i := 0;
      ghost var k := 0;
      while i < |rows|
        invariant i == k * BATCH_SIZE && k <= |Batches(rows)|
        invariant target.Valid() && target.inFlight == None && pending == None
        invariant target.committed == old(target.committed) + Batches(rows)[..k]
        invariant Undisturbed(old(target.log), target.log)
        decreases |rows| - i
      {
        NextBatch(rows, k);
        ghost var before := target.log;
        r := Execute(BatchAt(rows, i));
        UndisturbedSplits(old(target.log), before, target.log);
        if r.Err? {
          StoppedAt(old(target.committed), target.committed, Batches(rows), k);
          return;
        }
        i, k := i + BATCH_SIZE, k + 1;
      }
      BatchIsSlice(rows, k);
      assert Batches(rows)[..k] == Batches(rows);
      r := Ok(());
    }
  }

  // --------------------------------------------------------- reading it all back

  /** The order in which a rebuild submits the tables; every table occurs. */
  const ORDER: seq<Table> := [
    Users, Servers, Channels, Members, Bans, JoinRequests, Invites, DmServerInvites,
    Friends, Blocks, ReadStates, PinnedMessages, Messages, DirectMessages]

  lemma EveryTableIsRebuilt(t: Table)
    ensures t in ORDER
    ensures forall i, j :: 0 <= i < j < |ORDER| ==> ORDER[i] != ORDER[j]
  {
    var i := match t
      case Users => 0 case Servers => 1 case Channels => 2 case Members => 3 case Bans => 4 case JoinRequests => 5
      case Invites => 6 case DmServerInvites => 7 case Friends => 8 case Blocks => 9 case ReadStates => 10
      case PinnedMessages => 11 case Messages => 12 case DirectMessages => 13;
    assert ORDER[i] == t;
  }

  /** `list` is what the archive rows of the given tables decode to, each read once, in the order of `places`. */
  ghost predicate Reads(rows: map<Place, Columns>, tables: seq<Table>, places: seq<Place>, list: seq<Row>) {
    && |places| == |list|
    && (forall i, j :: 0 <= i < j < |places| ==> places[i] != places[j])
    && (forall p :: p in places <==> p in rows && p.table in tables)
    && (forall i :: 0 <= i < |places| ==> Decode(places[i].table, rows[places[i]]) == Some(list[i]))
  }

  lemma ReadsMore(rows: map<Place, Columns>, tables: seq<Table>, t: Table, places: seq<Place>, list: seq<Row>,
                  more: seq<Place>, moreRows: seq<Row>)
    requires Reads(rows, tables, places, list) && Reads(rows, [t], more, moreRows) && t !in tables
    ensures Reads(rows, tables + [t], places + more, list + moreRows)
  {
    forall i, j | 0 <= i < j < |places + more| ensures (places + more)[i] != (places + more)[j] {
      if i < |places| <= j {
        assert places[i] in places && more[j - |places|] in more;
      }
    }
    assert forall i :: 0 <= i < |places| ==> places[i] in places;
    assert forall i :: 0 <= i < |more| ==> more[i] in more;
  }

  ghost predicate Decodes(rows: map<Place, Columns>) {
    forall p :: p in rows ==> Decode(p.table, rows[p]).Some?
  }

  /** What was read in full decodes. */
  lemma ReadsDecode(rows: map<Place, Columns>, places: seq<Place>, list: seq<Row>)
    requires Reads(rows, ORDER, places, list)
    ensures Decodes(rows)
  {
    forall p | p in rows ensures Decode(p.table, rows[p]).Some? {
      EveryTableIsRebuilt(p.table);
      assert p in places;
      var i :| 0 <= i < |places| && places[i] == p;
      assert Decode(places[i].table, rows[places[i]]) == Some(list[i]);
    }
  }

  /** Reads one table; a column that does not decode raises. */
  method ReadTable(rows: map<Place, Columns>, t: Table) returns (r: Result<seq<Row>, Failure>, ghost places: seq<Place>)
    ensures r.Ok? ==> Reads(rows, [t], places, r.value)
    ensures r.Err? ==> r.error == BadColumns && exists p :: p in PlacesOf(rows, t) && Decode(t, rows[p]).None?
  {
    var list: seq<Row> := [];
    places := [];
    var rest := PlacesOf(rows, t);
    while rest != {}
      invariant rest <= PlacesOf(rows, t)
      invariant |places| == |list|
      invariant forall i, j :: 0 <= i < j < |places| ==> places[i] != places[j]
      invariant forall p :: p in places <==> p in PlacesOf(rows, t) && p !in rest
      invariant forall i :: 0 <= i < |places| ==>
        places[i] in PlacesOf(rows, t) && Decode(places[i].table, rows[places[i]]) == Some(list[i])
      decreases rest
    {
      var p :| p in rest;
      var row := Decode(t, rows[p]);
      if row.None? {
        return Err(BadColumns), places;
      }
      list := list + [row.value];
      places := places + [p];
      rest := rest - {p};
    }
    r := Ok(list);
  }

  /** Reads every table of `tables`, one list each. */
  method ReadAll(rows: map<Place, Columns>, tables: seq<Table>)
    returns (r: Result<seq<seq<Row>>, Failure>, ghost places: seq<Place>)
    requires forall i, j :: 0 <= i < j < |tables| ==> tables[i] != tables[j]
    ensures r.Ok? ==> Reads(rows, tables, places, Flatten(r.value))
    ensures r.Err? ==> r.error == BadColumns && !Decodes(rows)
  {
    var lists: seq<seq<Row>> := [];
    places := [];
    for i := 0 to |tables|
      invariant Reads(rows, tables[..i], places, Flatten(lists))
    {
      var list, more := ReadTable(rows, tables[i]);
      if list.Err? {
        return Err(list.error), places;
      }
      ReadsMore(rows, tables[..i], tables[i], places, Flatten(lists), more, list.value);
      assert tables[..i + 1] == tables[..i] + [tables[i]];
      FlattenPush(lists, list.value);
      lists := lists + [list.value];
      places := places + more;
    }
    assert tables[..|tables|] == tables;
    r := Ok(lists);
  }

  method SubmitList(confirmed: ConfirmedRestore, rows: seq<Row>) returns (r: Result<(), Failure>)
    requires confirmed.target.Valid() && confirmed.target.inFlight == None && confirmed.pending == None
    modifies confirmed`pending, confirmed.target
    ensures confirmed.target.Valid() && confirmed.pending == None
    ensures r.Ok? <==> Undisturbed(old(confirmed.target.log), confirmed.target.log)
    ensures r.Err? ==> EndsTheWait(old(confirmed.target.log), confirmed.target.log, r)
    ensures r.Ok? ==> confirmed.target.inFlight == None
    ensures r.Ok? ==> Flatten(confirmed.target.committed) == Flatten(old(confirmed.target.committed)) + rows
  {
    r := confirmed.SubmitAll(rows);
    FlattenConcat(old(confirmed.target.committed), Batches(rows));
    BatchesConcatenate(rows);
  }

  /** Submits one list after the other; the first failure ends the rebuild. */
  method SubmitLists(confirmed: ConfirmedRestore, lists: seq<seq<Row>>) returns (r: Result<(), Failure>)
    requires confirmed.target.Valid() && confirmed.target.inFlight == None && confirmed.pending == None
    modifies confirmed`pending, confirmed.target
    ensures confirmed.target.Valid()
    ensures r.Ok? <==> Undisturbed(old(confirmed.target.log), confirmed.target.log)
    ensures r.Err? ==> EndsTheWait(old(confirmed.target.log), confirmed.target.log, r)
    ensures r.Ok? ==> Flatten(confirmed.target.committed) == Flatten(old(confirmed.target.committed)) + Flatten(lists)
  {
    ghost var start, done := Flatten(confirmed.target.committed), [];
    for i := 0 to |lists|
      invariant confirmed.target.Valid() && confirmed.target.inFlight == None && confirmed.pending == None
      invariant done == Flatten(lists[..i]) && Flatten(confirmed.target.committed) == start + done
      invariant Undisturbed(old(confirmed.target.log), confirmed.target.log)
    {
      ghost var before := confirmed.target.log;
      r := SubmitList(confirmed, lists[i]);
      if before <= confirmed.target.log {
        UndisturbedSplits(old(confirmed.target.log), before, confirmed.target.log);
      }
      if r.Err? {
        return;
      }
      FlattenPush(lists[..i], lists[i]);
      assert lists[..i + 1] == lists[..i] + [lists[i]];
      done := done + lists[i];
    }
    assert lists[..|lists|] == lists;
    r := Ok(());
  }

  /**
    The whole rebuild: reads every table, then submits the lists. It stops
    before the first batch if and only if some archived row does not decode;
    otherwise it returns normally if and only if every wait was undisturbed.
  */
  method Run(rows: map<Place, Columns>, confirmed: ConfirmedRestore)
    returns (r: Result<(), Failure>, ghost places: seq<Place>, ghost restored: seq<Row>)
    requires confirmed.target.Valid() && confirmed.target.inFlight == None && confirmed.pending == None
    modifies confirmed`pending, confirmed.target
    ensures confirmed.target.Valid()
    ensures !Decodes(rows) ==>
      r == Err(BadColumns) && confirmed.target.committed == old(confirmed.target.committed)
    ensures Decodes(rows) ==>
      (r.Ok? <==> Undisturbed(old(confirmed.target.log), confirmed.target.log)) &&
      (r.Err? ==> EndsTheWait(old(confirmed.target.log), confirmed.target.log, r))
    ensures r.Ok? ==> Reads(rows, ORDER, places, restored)
    ensures r.Ok? ==> Flatten(confirmed.target.committed) == Flatten(old(confirmed.target.committed)) + restored
  {
    EveryTableIsRebuilt(Users);
    restored := [];
    var lists;
    lists, places := ReadAll(rows, ORDER);
    if lists.Err? {
      return Err(lists.error), places, restored;
    }
    restored := Flatten(lists.value);
    ReadsDecode(rows, places, restored);
    r := SubmitLists(confirmed, lists.value);
  }
}
