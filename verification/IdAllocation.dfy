/** Module-managed ids: the counter of one table, its allocations, restores and reseeds. */
module IdAllocation {
  import opened Wrappers

  newtype U64 = x: int | 0 <= x < 0x1_0000_0000_0000_0000

  const LIMIT: U64 := 0xFFFF_FFFF_FFFF_FFFF

  /** Addition as the release build does it. */
  function Bump(x: U64): U64 {
    if x == LIMIT then 0 else x + 1
  }

  function SaturatingNext(x: U64): U64 {
    if x == LIMIT then LIMIT else x + 1
  }

  /** The occupied ids from `next` on. */
  function Ahead(rows: set<U64>, next: U64): set<U64> {
    set id | id in rows && next <= id
  }

  /** The first free id from `next` on, unless every id up to the limit is taken. */
  function FirstFree(rows: set<U64>, next: U64): (r: Option<U64>)
    ensures r.Some? ==> next <= r.value && r.value !in rows
    ensures r.Some? ==> forall id :: next <= id < r.value ==> id in rows
    ensures r.None? ==> forall id :: next <= id ==> id in rows
    decreases LIMIT - next
  {
    if next !in rows then Some(next) else if next == LIMIT then None else FirstFree(rows, next + 1)
  }

  /** `alloc_id`, once a counter exists: the id handed out and the counter left behind. */
  function Allocate(rows: set<U64>, next: U64): (U64, U64) {
    var free := FirstFree(rows, next);
    if free.Some? then (free.value, Bump(free.value)) else (0, 1)
  }

  /** `raise_id_counter` */
  function Raise(counter: Option<U64>, maxId: U64): Option<U64> {
    if maxId == 0 then counter
    else if counter.Some? && counter.value >= SaturatingNext(maxId) then counter
    else Some(SaturatingNext(maxId))
  }

  function RaiseAll(counter: Option<U64>, ids: seq<U64>): Option<U64>
    decreases ids
  {
    if ids == [] then counter else RaiseAll(Raise(counter, ids[0]), ids[1..])
  }

  predicate AboveAll(counter: Option<U64>, ids: seq<U64>) {
    forall id :: id in ids && id > 0 ==> counter.Some? && counter.value >= SaturatingNext(id)
  }

  /** Raising is a maximum: never lower, above every id, no higher than one of them asks for. */
  lemma {:induction false} RaiseIsMax(counter: Option<U64>, ids: seq<U64>)
    ensures AboveAll(RaiseAll(counter, ids), ids)
    ensures counter.Some? ==> RaiseAll(counter, ids).Some? && RaiseAll(counter, ids).value >= counter.value
    ensures RaiseAll(counter, ids) == counter ||
      exists id :: id in ids && RaiseAll(counter, ids) == Some(SaturatingNext(id))
    decreases ids
  {
    if ids != [] {
      RaiseIsMax(Raise(counter, ids[0]), ids[1..]);
      assert ids == [ids[0]] + ids[1..];
    }
  }

  /** Replaying restores, in any order and however often, ends at the same counter. */
  lemma RaiseOrderIsImmaterial(counter: Option<U64>, xs: seq<U64>, ys: seq<U64>)
    requires forall id :: id in xs <==> id in ys
    ensures RaiseAll(counter, xs) == RaiseAll(counter, ys)
  {
    RaiseIsMax(counter, xs);
    RaiseIsMax(counter, ys);
    RaiseKeepsNone(counter, xs);
    RaiseKeepsNone(counter, ys);
  }

  lemma {:induction false} RaiseKeepsNone(counter: Option<U64>, ids: seq<U64>)
    ensures RaiseAll(counter, ids).None? <==> counter.None? && forall id :: id in ids ==> id == 0
    decreases ids
  {
    if ids != [] {
      RaiseKeepsNone(Raise(counter, ids[0]), ids[1..]);
      assert ids[0] in ids && forall id :: id in ids <==> id == ids[0] || id in ids[1..];
    }
  }

  // ----------------------------------------------------------------- whole runs

  /** One table, and every id a row of it has ever had. */
  datatype Ids = Ids(counter: Option<U64>, rows: set<U64>, everUsed: set<U64>)

  datatype Event =
    | Insert
    | AutoInsert(id: U64)
    | Remove(id: U64)
    | Restore(ids: seq<U64>)
    | Reseed

  /** The largest id, or zero. */
  function Max(ids: set<U64>): (m: U64)
    ensures forall id :: id in ids ==> id <= m
    ensures m == 0 || m in ids
  {
    MaxBelow(ids, LIMIT)
  }

  function MaxBelow(ids: set<U64>, bound: U64): (m: U64)
    requires forall id :: id in ids ==> id <= bound
    ensures forall id :: id in ids ==> id <= m
    ensures m == 0 || m in ids
    decreases bound
  {
    if bound == 0 || bound in ids then bound else MaxBelow(ids, bound - 1)
  }

  function Elements(ids: seq<U64>): set<U64> {
    set id | id in ids
  }

  /**
    Ids stay below the 64-bit limit, restored rows have the ids they had, and
    the table's own sequence never repeats an id.
  */
  predicate Enabled(s: Ids, event: Event) {
    match event
    case Insert =>
      s.counter.Some? && FirstFree(s.rows, s.counter.value).Some? && FirstFree(s.rows, s.counter.value).value < LIMIT
    case AutoInsert(id) => s.counter.None? && 0 < id < LIMIT && id !in s.everUsed
    case Restore(ids) => forall id :: id in ids ==> 0 < id < LIMIT
    case _ => true
  }

  /** The id an insert gets from the counter. */
  function Issued(s: Ids): U64
    requires s.counter.Some?
  {
    Allocate(s.rows, s.counter.value).0
  }

  function WithRows(s: Ids, counter: Option<U64>, ids: set<U64>): Ids {
    Ids(counter, s.rows + ids, s.everUsed + ids)
  }

  function Step(s: Ids, event: Event): Ids
    requires Enabled(s, event)
  {
    match event
    case Insert => WithRows(s, Some(Allocate(s.rows, s.counter.value).1), {Issued(s)})
    case AutoInsert(id) => WithRows(s, s.counter, {id})
    case Remove(id) => s.(rows := s.rows - {id})
    case Restore(ids) => WithRows(s, Raise(s.counter, Max(Elements(ids))), Elements(ids))
    case Reseed => s.(counter := Raise(s.counter, Max(s.rows)))
  }

  predicate Inv(s: Ids) {
    && s.rows <= s.everUsed
    && (s.counter.Some? ==> s.counter.value > 0)
    && forall id :: id in s.everUsed ==> 0 < id < LIMIT
  }

  /** Every id ever used lies below the counter. */
  predicate Safe(s: Ids) {
    s.counter.Some? && forall id :: id in s.everUsed ==> id < s.counter.value
  }

  ghost predicate TakesStep(states: seq<Ids>, events: seq<Event>, n: nat)
    requires n < |events| && |states| == |events| + 1
  {
    Enabled(states[n], events[n]) && states[n + 1] == Step(states[n], events[n])
  }

  ghost predicate IsRun(s: Ids, states: seq<Ids>, events: seq<Event>) {
    && |states| == |events| + 1
    && states[0] == s
    && forall n :: 0 <= n < |events| ==> TakesStep(states, events, n)
  }

  lemma StepKeepsInv(s: Ids, event: Event)
    requires Inv(s) && Enabled(s, event)
    ensures Inv(Step(s, event))
    ensures s.everUsed <= Step(s, event).everUsed
    ensures s.counter.Some? ==> Step(s, event).counter.Some? && Step(s, event).counter.value >= s.counter.value
    ensures event.Insert? ==> s.counter.value <= Issued(s) < Step(s, event).counter.value && Issued(s) !in s.rows
    ensures Safe(s) ==> Safe(Step(s, event))
  {
  }

  lemma {:induction false} RunKeepsInv(s: Ids, states: seq<Ids>, events: seq<Event>, m: nat, n: nat)
    requires Inv(s) && IsRun(s, states, events) && m <= n < |states|
    ensures Inv(states[n])
    ensures states[m].counter.Some? ==>
      states[n].counter.Some? && states[n].counter.value >= states[m].counter.value
    ensures Safe(states[m]) ==> Safe(states[n])
    decreases n
  {
    if n > 0 {
      RunKeepsInv(s, states, events, if m < n then m else n - 1, n - 1);
      assert TakesStep(states, events, n - 1);
      StepKeepsInv(states[n - 1], events[n - 1]);
    }
  }

  /** Over every interleaving of inserts, deletes, restores and reseeds, issued ids strictly increase and are free. */
  lemma IssuedIdsIncrease(s: Ids, states: seq<Ids>, events: seq<Event>, m: nat, n: nat)
    requires Inv(s) && IsRun(s, states, events) && m < n < |events| && events[m].Insert? && events[n].Insert?
    ensures states[m].counter.Some? && states[n].counter.Some?
    ensures Issued(states[m]) < Issued(states[n])
    ensures Issued(states[n]) !in states[n].rows
  {
    RunKeepsInv(s, states, events, 0, m);
    RunKeepsInv(s, states, events, m + 1, n);
    assert TakesStep(states, events, m) && TakesStep(states, events, n);
    StepKeepsInv(states[m], events[m]);
    StepKeepsInv(states[n], events[n]);
  }

  /**
    What an event does to the rows: an insert adds the first free id from the
    counter on, a restore adds the given ids, a delete removes one. A restore or
    a reseed leaves the counter above every id restored or present.
  */
  lemma StepMeans(s: Ids, event: Event)
    requires Inv(s) && Enabled(s, event)
    ensures
      var t := Step(s, event);
      match event
      case Insert =>
        var id := Issued(s);
        && t.rows == s.rows + {id} && id !in s.rows && s.counter.value <= id && t.counter == Some(id + 1)
        && (forall x :: s.counter.value <= x < id ==> x in s.rows)
      case AutoInsert(id) => t.rows == s.rows + {id} && t.counter == s.counter
      case Remove(id) => t.rows == s.rows - {id} && t.counter == s.counter && t.everUsed == s.everUsed
      case Restore(ids) =>
        (forall x :: x in t.rows <==> x in s.rows || x in ids)
        && forall x :: x in ids ==> t.counter.Some? && x < t.counter.value
      case Reseed => t.rows == s.rows && forall x :: x in s.rows ==> t.counter.Some? && x < t.counter.value
  {
  }

  ghost predicate Reuses(states: seq<Ids>, events: seq<Event>, n: nat)
    requires n < |events| && |states| == |events| + 1
  {
    events[n].Insert? && states[n].counter.Some? && Issued(states[n]) in states[n].everUsed
  }

  ghost predicate CanReuse(s: Ids) {
    exists states, events, n :: IsRun(s, states, events) && 0 <= n < |events| && Reuses(states, events, n)
  }

  lemma {:induction false} EverUsedGrows(s: Ids, states: seq<Ids>, events: seq<Event>, n: nat)
    requires Inv(s) && IsRun(s, states, events) && n < |states|
    ensures s.everUsed <= states[n].everUsed
  {
    if n > 0 {
      EverUsedGrows(s, states, events, n - 1);
      RunKeepsInv(s, states, events, n - 1, n - 1);
      assert TakesStep(states, events, n - 1);
      StepKeepsInv(states[n - 1], events[n - 1]);
    }
  }

  lemma SafeNeverReuses(s: Ids, states: seq<Ids>, events: seq<Event>, n: nat)
    requires Inv(s) && Safe(s) && IsRun(s, states, events) && n < |events|
    ensures !Reuses(states, events, n)
  {
    RunKeepsInv(s, states, events, 0, n);
    assert TakesStep(states, events, n);
    if events[n].Insert? {
      StepKeepsInv(states[n], events[n]);
    }
  }

  lemma RunFromNext(s: Ids, event: Event, states: seq<Ids>, events: seq<Event>)
    requires Enabled(s, event) && IsRun(Step(s, event), states, events)
    ensures IsRun(s, [s] + states, [event] + events)
  {
    forall n | 0 <= n < |events| + 1 ensures TakesStep([s] + states, [event] + events, n) {
      if n > 0 {
        assert TakesStep(states, events, n - 1);
      }
    }
  }

  /** From the counter on, inserts walk up to any free id. */
  lemma {:induction false} InsertsReach(s: Ids, e: U64) returns (states: seq<Ids>, events: seq<Event>)
    requires s.counter.Some? && s.counter.value <= e < LIMIT && e !in s.rows
    ensures IsRun(s, states, events) && |events| > 0
    ensures events[|events| - 1].Insert? && states[|events| - 1].counter.Some? && Issued(states[|events| - 1]) == e
    decreases e - s.counter.value
  {
    var next := Step(s, Insert);
    if Issued(s) == e {
      states, events := [s, next], [Insert];
      assert TakesStep(states, events, 0);
    } else {
      var laterStates, laterEvents := InsertsReach(next, e);
      RunFromNext(s, Insert, laterStates, laterEvents);
      states, events := [s] + laterStates, [Insert] + laterEvents;
    }
  }

  lemma UnsafeReuses(s: Ids, e: U64)
    requires Inv(s) && s.counter.Some? && e in s.everUsed && s.counter.value <= e
    ensures CanReuse(s)
  {
    var next := Step(s, Remove(e));
    var states, events := InsertsReach(next, e);
    RunFromNext(s, Remove(e), states, events);
    var n := |events|;
    EverUsedGrows(next, states, events, n - 1);
    assert ([s] + states)[n] == states[n - 1] && ([Remove(e)] + events)[n] == events[n - 1];
    assert Reuses([s] + states, [Remove(e)] + events, n);
  }

  /**
    Once a counter exists, no future insert can get an id that was ever used,
    before or since, if and only if every id ever used lies below the counter.
  */
  lemma ReuseIsImpossibleIff(s: Ids)
    requires Inv(s) && s.counter.Some?
    ensures !CanReuse(s) <==> Safe(s)
  {
    if Safe(s) {
      forall states, events, n | IsRun(s, states, events) && 0 <= n < |events| ensures !Reuses(states, events, n) {
        SafeNeverReuses(s, states, events, n);
      }
    } else {
      var e :| e in s.everUsed && s.counter.value <= e;
      UnsafeReuses(s, e);
    }
  }

  /** A restore or a reseed that creates the counter is safe exactly when no larger id was used and deleted before. */
  lemma FirstCounterIsSafeIff(s: Ids, event: Event)
    requires Inv(s) && s.counter.None? && Enabled(s, event) && (event.Restore? || event.Reseed?)
    requires Step(s, event).counter.Some?
    ensures
      var top := if event.Restore? then Max(Elements(event.ids)) else Max(s.rows);
      Safe(Step(s, event)) <==> forall id :: id in s.everUsed ==> id <= top
  {
  }

  /** An auto-numbered row is deleted, the table is reseeded, and the next insert gets its id again. */
  lemma ReseedCanReuse()
    ensures
      var s := Ids(None, {1}, {1, 2});
      Inv(s) && Enabled(s, Reseed) && CanReuse(Step(s, Reseed))
  {
    var s := Ids(None, {1}, {1, 2});
    assert Max({1}) == 1;
    UnsafeReuses(Step(s, Reseed), 2);
  }

  // ------------------------------------------------------------------ the reducers

  /** The counters and the rows of every auto-numbered table. */
  class IdCounters {
    var counters: map<string, U64>
    var rows: map<string, set<U64>>

    constructor ()
      ensures counters == map[] && rows == map[]
    {
      counters := map[];
      rows := map[];
    }

    function RowsOf(table: string): set<U64>
      reads this`rows
    {
      if table in rows then rows[table] else {}
    }

    function CounterOf(table: string): Option<U64>
      reads this`counters
    {
      if table in counters then Some(counters[table]) else None
    }

    /** Skips occupied ids. Without a counter, zero asks for an automatic id. */
    method AllocId(table: string) returns (id: U64)
      requires 0 !in RowsOf(table)
      modifies this`counters
      ensures old(CounterOf(table)).None? ==> id == 0 && counters == old(counters)
      ensures old(CounterOf(table)).Some? ==>
        var (issued, next) := Allocate(RowsOf(table), old(counters)[table]);
        id == issued && counters == old(counters)[table := next]
      ensures id !in RowsOf(table)
    {
      if table !in counters {
        return 0;
      }
      var taken, next := RowsOf(table), counters[table];
      ghost var start := next;
      while next in taken
        invariant start <= next || next == 0
        invariant start <= next && next != 0 ==> FirstFree(taken, start) == FirstFree(taken, next)
        invariant next == 0 && start > 0 ==> FirstFree(taken, start).None?
        decreases next != 0, Ahead(taken, next)
      {
        assert next < LIMIT ==> next in Ahead(taken, next) && Ahead(taken, next + 1) < Ahead(taken, next);
        next := Bump(next);
      }
      id := next;
      counters := counters[table := Bump(next)];
    }

    /** Never lowers a counter; an id of zero asks for nothing. */
    method RaiseCounter(table: string, maxId: U64)
      modifies this`counters
      ensures CounterOf(table) == Raise(old(CounterOf(table)), maxId)
      ensures forall t :: t != table ==> CounterOf(t) == old(CounterOf(t))
    {
      if maxId == 0 {
        return;
      }
      var next := SaturatingNext(maxId);
      if table !in counters || counters[table] < next {
        counters := counters[table := next];
      }
    }

    /** Restores rows under their own ids, then lifts the counter above them. */
    method RestoreRows(table: string, ids: seq<U64>)
      modifies this
      ensures RowsOf(table) == old(RowsOf(table)) + Elements(ids)
      ensures CounterOf(table) == Raise(old(CounterOf(table)), Max(Elements(ids)))
      ensures forall t :: t != table ==> CounterOf(t) == old(CounterOf(t)) && RowsOf(t) == old(RowsOf(t))
    {
      var maxId := 0;
      for i := 0 to |ids|
        invariant maxId == Max(Elements(ids[..i]))
        invariant counters == old(counters)
        invariant RowsOf(table) == old(RowsOf(table)) + Elements(ids[..i])
        invariant forall t :: t != table ==> RowsOf(t) == old(RowsOf(t))
      {
        assert Elements(ids[..i + 1]) == Elements(ids[..i]) + {ids[i]};
        MaxIsUnique(Elements(ids[..i + 1]), if ids[i] > maxId then ids[i] else maxId);
        maxId := if ids[i] > maxId then ids[i] else maxId;
        rows := rows[table := RowsOf(table) + {ids[i]}];
      }
      assert ids[..|ids|] == ids;
      RaiseCounter(table, maxId);
    }

    /** Lifts the counter of a table above its largest row; an empty table keeps its own sequence. */
    method Reseed(table: string)
      modifies this`counters
      ensures CounterOf(table) == Raise(old(CounterOf(table)), Max(RowsOf(table)))
      ensures forall t :: t != table ==> CounterOf(t) == old(CounterOf(t))
    {
      var maxId := 0;
      var rest := RowsOf(table);
      while rest != {}
        invariant rest <= RowsOf(table)
        invariant forall id :: id in RowsOf(table) ==> id in rest || id <= maxId
        invariant maxId == 0 || maxId in RowsOf(table)
        decreases rest
      {
        var id :| id in rest;
        if id > maxId {
          maxId := id;
        }
        rest := rest - {id};
      }
      MaxIsUnique(RowsOf(table), maxId);
      RaiseCounter(table, maxId);
    }
  }

  lemma MaxIsUnique(ids: set<U64>, m: U64)
    requires (forall id :: id in ids ==> id <= m) && (m == 0 || m in ids)
    ensures Max(ids) == m
  {
  }
}
