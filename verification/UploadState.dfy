/**
  A multipart upload as a state machine: parts waiting, parts in the pool, and
  what a finished try, a failed try or a progress report changes.
*/
module UploadState {
  import opened Wrappers

  const MAX_PARALLEL_PARTS := 4
  const MAX_TRIES := 3

  datatype Error =
    | InvalidParameters | InvalidPart
    | StorageFull | PutFailed

  /** A file of `size` bytes cut into parts of `partSize`. */
  datatype PlanData = Plan(size: nat, partSize: nat, partCount: nat)

  /** `Math.ceil` of the quotient. */
  function CeilDiv(a: nat, b: nat): nat
    requires b > 0
  {
    (a + b - 1) / b
  }

  /** A plan the upload accepts. */
  type Plan = p: PlanData | 0 < p.partSize && 0 < p.partCount == CeilDiv(p.size, p.partSize) witness Plan(1, 1, 1)

  predicate IsPart(p: Plan, n: nat) {
    1 <= n <= p.partCount
  }

  function Start(p: Plan, n: nat): int {
    (n - 1) * p.partSize
  }

  function End(p: Plan, n: nat): int {
    if p.size < Start(p, n) + p.partSize then p.size else Start(p, n) + p.partSize
  }

  function Length(p: Plan, n: nat): (bytes: nat)
    requires IsPart(p, n)
    ensures bytes == if p.partSize < p.size - Start(p, n) then p.partSize else p.size - Start(p, n)
  {
    PartStartsInside(p, n);
    End(p, n) - Start(p, n)
  }

  lemma {:induction false} Multiples(a: int, b: int, c: nat)
    requires a < b
    ensures a * c + c <= b * c
    decreases b - a
  {
    assert b * c == (b - 1) * c + c;
    if b > a + 1 {
      Multiples(a, b - 1, c);
    }
  }

  lemma PartStartsInside(p: Plan, n: nat)
    requires IsPart(p, n)
    ensures 0 <= Start(p, n) < End(p, n) <= p.size
    ensures End(p, n) == p.size <==> n == p.partCount
  {
    LastPartEndsFile(p);
    if n < p.partCount {
      Multiples(n - 1, p.partCount - 1, p.partSize);
    }
    if n > 1 {
      Multiples(0, n - 1, p.partSize);
    }
  }

  lemma LastPartEndsFile(p: Plan)
    ensures Start(p, p.partCount) < p.size <= Start(p, p.partCount) + p.partSize
  {
    var q := p.size + p.partSize - 1;
    assert q == p.partSize * p.partCount + q % p.partSize;
    assert Start(p, p.partCount) == p.partSize * p.partCount - p.partSize;
  }

  lemma PartsAreOrdered(p: Plan, m: nat, n: nat)
    requires IsPart(p, m) && IsPart(p, n) && m < n
    ensures End(p, m) <= Start(p, n)
    ensures n == m + 1 ==> End(p, m) == Start(p, n)
  {
    Multiples(m - 1, n - 1, p.partSize);
    PartStartsInside(p, n);
    assert Start(p, m + 1) == Start(p, m) + p.partSize;
  }

  /** Every byte of the file lies in exactly one part. */
  lemma PartsPartitionFile(p: Plan, b: nat)
    requires b < p.size
    ensures var n := b / p.partSize + 1;
      IsPart(p, n) && Start(p, n) <= b < End(p, n) &&
      forall m: nat :: IsPart(p, m) && Start(p, m) <= b < End(p, m) ==> m == n
  {
    var n := b / p.partSize + 1;
    ByteInPart(p, b);
    forall m: nat | IsPart(p, m) && Start(p, m) <= b < End(p, m) ensures m == n {
      if m < n {
        PartsAreOrdered(p, m, n);
      } else if m > n {
        PartsAreOrdered(p, n, m);
      }
    }
  }

  lemma ByteInPart(p: Plan, b: nat)
    requires b < p.size
    ensures IsPart(p, b / p.partSize + 1) && Start(p, b / p.partSize + 1) <= b < End(p, b / p.partSize + 1)
  {
    var q := b / p.partSize;
    assert b == p.partSize * q + b % p.partSize;
    assert Start(p, q + 1) == p.partSize * q;
    LastPartEndsFile(p);
    if q >= p.partCount {
      Multiples(p.partCount - 1, q, p.partSize);
    }
  }

  // -------------------------------------------------------------------- sums

  /** The sum of the entries 1 to `k`. */
  function Sum(m: map<nat, nat>, k: nat): nat {
    if k == 0 then 0 else Sum(m, k - 1) + if k in m then m[k] else 0
  }

  lemma {:induction false} NoSum(k: nat)
    ensures Sum(map[], k) == 0
  {
    if k > 0 {
      NoSum(k - 1);
    }
  }

  lemma {:induction false} SumUpdate(m: map<nat, nat>, k: nat, n: nat, v: nat)
    requires n > 0
    ensures Sum(m[n := v], k) == Sum(m - {n}, k) + if n <= k then v else 0
    ensures Sum(m, k) == Sum(m - {n}, k) + if n in m && n <= k then m[n] else 0
  {
    if k > 0 {
      SumUpdate(m, k - 1, n, v);
    }
  }

  lemma {:induction false} SumBound(m: map<nat, nat>, l: map<nat, nat>, k: nat)
    requires forall n :: n in m && 1 <= n <= k ==> n in l && m[n] <= l[n]
    ensures Sum(m, k) <= Sum(l, k)
  {
    if k > 0 {
      SumBound(m, l, k - 1);
    }
  }

  lemma {:induction false} SumSplit(a: map<nat, nat>, b: map<nat, nat>, k: nat)
    requires a.Keys !! b.Keys
    ensures Sum(a + b, k) == Sum(a, k) + Sum(b, k)
  {
    if k > 0 {
      SumSplit(a, b, k - 1);
    }
  }

  /** The lengths of the given parts. */
  function Lengths(p: Plan, parts: set<nat>): map<nat, nat> {
    map n | n in parts && IsPart(p, n) :: Length(p, n)
  }

  function Bytes(p: Plan, parts: set<nat>): nat {
    Sum(Lengths(p, parts), p.partCount)
  }

  function AllParts(p: Plan): set<nat> {
    set n: nat | n <= p.partCount && IsPart(p, n)
  }

  lemma {:induction false} FirstPartsBytes(p: Plan, k: nat)
    requires k <= p.partCount
    ensures Sum(Lengths(p, AllParts(p)), k) == if k == 0 then 0 else End(p, k)
  {
    if k > 0 {
      FirstPartsBytes(p, k - 1);
      PartStartsInside(p, k);
      if k > 1 {
        PartsAreOrdered(p, k - 1, k);
      }
    }
  }

  lemma AllBytes(p: Plan)
    ensures Bytes(p, AllParts(p)) == p.size
  {
    FirstPartsBytes(p, p.partCount);
    PartStartsInside(p, p.partCount);
  }

  lemma MoreBytes(p: Plan, parts: set<nat>, n: nat)
    requires IsPart(p, n) && n !in parts
    ensures Bytes(p, parts + {n}) == Bytes(p, parts) + Length(p, n)
  {
    SumUpdate(Lengths(p, parts), p.partCount, n, Length(p, n));
    assert Lengths(p, parts)[n := Length(p, n)] == Lengths(p, parts + {n});
    assert Lengths(p, parts) - {n} == Lengths(p, parts);
  }

  // -------------------------------------------------------------- the pool

  /** A part in the pool: on its `tries`-th try, or settled and about to leave. */
  datatype Task = Uploading(tries: nat) | Finished | Rejected(error: Error)

  datatype State = State(
    doneBytes: nat,
    limit: nat,
    failure: Option<Error>,
    pending: seq<nat>,
    active: map<nat, Task>,
    inFlight: map<nat, nat>,
    put: seq<nat>,
    started: map<nat, nat>)

  datatype Event =
    | Launch
    | Progress(part: nat, loaded: nat)
    | Put(part: nat, fast: bool)
    | Fail(part: nat, error: Error)
    | Settle(part: nat)

  predicate IsUploading(s: State, n: nat) {
    n in s.active && s.active[n].Uploading?
  }

  predicate Enabled(p: Plan, s: State, event: Event) {
    match event
    case Launch => s.failure == None && |s.active| < s.limit && s.pending != []
    case Progress(n, _) => IsPart(p, n) && IsUploading(s, n)
    case Put(n, _) => IsPart(p, n) && IsUploading(s, n)
    case Fail(n, _) => IsPart(p, n) && IsUploading(s, n)
    case Settle(n) => n in s.active && !s.active[n].Uploading?
  }

  function Initial(p: Plan, completed: set<nat>, doneBytes: nat): State {
    State(doneBytes, 1, None, Pending(p.partCount, completed), map[], map[], [], map[])
  }

  /** The parts still to send, in order. */
  function Pending(count: nat, completed: set<nat>): (parts: seq<nat>)
    ensures forall n :: n in parts <==> 1 <= n <= count && n !in completed
    ensures forall i, j :: 0 <= i < j < |parts| ==> parts[i] < parts[j]
    ensures |parts| <= count
  {
    if count == 0 then []
    else
      var before := Pending(count - 1, completed);
      assert forall i :: 0 <= i < |before| ==> before[i] in before;
      if count in completed then before else before + [count]
  }

  function Launched(s: State): State
    requires s.pending != []
  {
    var n := s.pending[0];
    s.(pending := s.pending[1..], active := s.active[n := Uploading(1)], started := s.started[n := 1])
  }

  function Progressed(p: Plan, s: State, n: nat, loaded: nat): State
    requires IsPart(p, n)
  {
    s.(inFlight := s.inFlight[n := if loaded < Length(p, n) then loaded else Length(p, n)])
  }

  /** A part got through: fast parts widen the pool, slow ones narrow it. */
  function PutThrough(p: Plan, s: State, n: nat, fast: bool): State
    requires IsPart(p, n)
  {
    s.(limit := if fast then if s.limit + 1 < MAX_PARALLEL_PARTS then s.limit + 1 else MAX_PARALLEL_PARTS
                else if s.limit > 2 then s.limit - 1 else 1,
       inFlight := s.inFlight - {n},
       doneBytes := s.doneBytes + Length(p, n),
       active := s.active[n := Finished],
       put := s.put + [n])
  }

  /** A try failed: again, unless storage is full, it was the last try, or another part gave up. */
  function Failed(s: State, n: nat, error: Error): State
    requires IsUploading(s, n)
  {
    var tries := s.active[n].tries;
    var t := s.(limit := 1, inFlight := s.inFlight - {n});
    if error.StorageFull? || tries >= MAX_TRIES || s.failure.Some? then
      t.(active := s.active[n := Rejected(error)])
    else
      t.(active := s.active[n := Uploading(tries + 1)], started := s.started[n := tries + 1])
  }

  /** A settled part leaves the pool; the first error is kept. */
  function Settled(s: State, n: nat): State
    requires n in s.active
  {
    s.(active := s.active - {n},
       failure := if s.failure == None && s.active[n].Rejected? then Some(s.active[n].error) else s.failure)
  }

  function Step(p: Plan, s: State, event: Event): State
    requires Enabled(p, s, event)
  {
    match event
    case Launch => Launched(s)
    case Progress(n, loaded) => Progressed(p, s, n, loaded)
    case Put(n, fast) => PutThrough(p, s, n, fast)
    case Fail(n, error) => Failed(s, n, error)
    case Settle(n) => Settled(s, n)
  }

  // ---------------------------------------------------------------- invariants

  predicate Distinct(xs: seq<nat>) {
    forall i, j :: 0 <= i < j < |xs| ==> xs[i] != xs[j]
  }

  /** Every part is done, waiting, or in the pool, and never in two of these. */
  ghost predicate PartsInv(p: Plan, completed: set<nat>, s: State) {
    && Distinct(s.pending) && Distinct(s.put)
    && (forall n :: n in s.pending ==> IsPart(p, n) && n !in completed && n !in s.put && n !in s.active)
    && (forall n :: n in s.put ==> IsPart(p, n) && n !in completed)
    && (forall n :: n in s.active ==> IsPart(p, n) && n !in completed && (n in s.put <==> s.active[n].Finished?))
    && (forall n :: n in completed ==> IsPart(p, n))
  }

  /** No part is lost without a failure. */
  ghost predicate NothingLost(p: Plan, completed: set<nat>, s: State) {
    s.failure == None ==>
      forall n :: IsPart(p, n) ==> n in completed || n in s.put || n in s.pending || n in s.active
  }

  ghost predicate PoolInv(s: State) {
    && 1 <= s.limit <= MAX_PARALLEL_PARTS
    && |s.active| <= MAX_PARALLEL_PARTS
  }

  ghost predicate TriesInv(s: State) {
    && (forall n :: n in s.started ==> 1 <= s.started[n] <= MAX_TRIES)
    && (forall n :: IsUploading(s, n) ==> n in s.started && s.started[n] == s.active[n].tries)
    && (forall n :: n in s.pending ==> n !in s.started)
  }

  function PutSet(s: State): set<nat> {
    set n | n in s.put
  }

  ghost predicate BytesInv(p: Plan, completed: set<nat>, s: State) {
    && s.doneBytes == Bytes(p, completed + PutSet(s))
    && (forall n :: n in s.inFlight ==> IsUploading(s, n) && IsPart(p, n) && s.inFlight[n] <= Length(p, n))
  }

  ghost predicate Inv(p: Plan, completed: set<nat>, s: State) {
    PartsInv(p, completed, s) && NothingLost(p, completed, s) && PoolInv(s) && TriesInv(s) && BytesInv(p, completed, s)
  }

  lemma InitialInv(p: Plan, completed: set<nat>)
    requires forall n :: n in completed ==> IsPart(p, n)
    ensures Inv(p, completed, Initial(p, completed, Bytes(p, completed)))
  {
    var s := Initial(p, completed, Bytes(p, completed));
    assert completed + PutSet(s) == completed;
  }

  lemma LaunchKeepsInv(p: Plan, completed: set<nat>, s: State)
    requires Inv(p, completed, s) && Enabled(p, s, Launch)
    ensures Inv(p, completed, Launched(s))
  {
    assert s.pending[0] in s.pending;
    LaunchKeepsParts(p, completed, s);
    OneMoreActive(s.active, s.pending[0], Uploading(1));
    LaunchKeepsBytes(p, completed, s);
  }

  lemma OneMoreActive<T>(active: map<nat, T>, n: nat, task: T)
    requires n !in active
    ensures |active[n := task]| == |active| + 1
  {
    assert active[n := task].Keys == active.Keys + {n};
  }

  lemma LaunchKeepsBytes(p: Plan, completed: set<nat>, s: State)
    requires BytesInv(p, completed, s) && s.pending != [] && s.pending[0] !in s.active
    ensures BytesInv(p, completed, Launched(s))
  {
    assert PutSet(Launched(s)) == PutSet(s);
    assert forall n :: IsUploading(s, n) ==> IsUploading(Launched(s), n);
  }

  lemma LaunchKeepsParts(p: Plan, completed: set<nat>, s: State)
    requires PartsInv(p, completed, s) && NothingLost(p, completed, s) && TriesInv(s) && s.pending != []
    ensures PartsInv(p, completed, Launched(s)) && NothingLost(p, completed, Launched(s)) && TriesInv(Launched(s))
  {
    var n, t := s.pending[0], Launched(s);
    assert n in s.pending;
    assert s.pending == [n] + t.pending;
  }

  lemma ProgressKeepsInv(p: Plan, completed: set<nat>, s: State, n: nat, loaded: nat)
    requires Inv(p, completed, s) && Enabled(p, s, Progress(n, loaded))
    ensures Inv(p, completed, Progressed(p, s, n, loaded))
  {
    assert PutSet(Progressed(p, s, n, loaded)) == PutSet(s);
  }

  lemma PutKeepsInv(p: Plan, completed: set<nat>, s: State, n: nat, fast: bool)
    requires Inv(p, completed, s) && Enabled(p, s, Put(n, fast))
    ensures Inv(p, completed, PutThrough(p, s, n, fast))
  {
    var t := PutThrough(p, s, n, fast);
    assert t.active.Keys == s.active.Keys;
    MoreBytes(p, completed + PutSet(s), n);
    assert completed + PutSet(t) == completed + PutSet(s) + {n};
  }

  lemma FailKeepsInv(p: Plan, completed: set<nat>, s: State, n: nat, error: Error)
    requires Inv(p, completed, s) && Enabled(p, s, Fail(n, error))
    ensures Inv(p, completed, Failed(s, n, error))
  {
    var t := Failed(s, n, error);
    assert t.active.Keys == s.active.Keys;
    assert PutSet(t) == PutSet(s);
  }

  lemma SettleKeepsInv(p: Plan, completed: set<nat>, s: State, n: nat)
    requires Inv(p, completed, s) && Enabled(p, s, Settle(n))
    ensures Inv(p, completed, Settled(s, n))
  {
    var t := Settled(s, n);
    assert t.active.Keys == s.active.Keys - {n};
    assert PutSet(t) == PutSet(s);
  }

  lemma StepKeepsInv(p: Plan, completed: set<nat>, s: State, event: Event)
    requires Inv(p, completed, s) && Enabled(p, s, event)
    ensures Inv(p, completed, Step(p, s, event))
  {
    match event
    case Launch => LaunchKeepsInv(p, completed, s);
    case Progress(n, loaded) => ProgressKeepsInv(p, completed, s, n, loaded);
    case Put(n, fast) => PutKeepsInv(p, completed, s, n, fast);
    case Fail(n, error) => FailKeepsInv(p, completed, s, n, error);
    case Settle(n) => SettleKeepsInv(p, completed, s, n);
  }

  // ------------------------------------------------------------ giving up a part

  /** Storage is full, or the part has had its third try. */
  predicate Earned(s: State, n: nat, error: Error) {
    error == StorageFull || (n in s.started && s.started[n] == 3)
  }

  /** While nothing has failed, no part is given up before its third try unless storage is full. */
  ghost predicate FailureEarned(s: State) {
    && (s.failure == None ==>
          forall n :: n in s.active && s.active[n].Rejected? ==> Earned(s, n, s.active[n].error))
    && (s.failure.Some? ==> exists n :: Earned(s, n, s.failure.value))
  }

  lemma StepKeepsFailureEarned(p: Plan, completed: set<nat>, s: State, event: Event)
    requires Inv(p, completed, s) && FailureEarned(s) && Enabled(p, s, event)
    ensures FailureEarned(Step(p, s, event))
  {
    var t := Step(p, s, event);
    if s.failure.Some? {
      var n :| Earned(s, n, s.failure.value);
      assert Earned(t, n, t.failure.value);
    } else if t.failure.Some? {
      assert Earned(t, event.part, t.failure.value);
    } else if event.Launch? {
      assert s.pending[0] in s.pending;
    }
  }

  /** How a part comes to be rejected while nothing has failed yet. */
  lemma RejectedBy(p: Plan, completed: set<nat>, s: State, event: Event, n: nat)
    requires Inv(p, completed, s) && Enabled(p, s, event)
    requires n in Step(p, s, event).active && Step(p, s, event).active[n].Rejected? && s.failure == None
    ensures
      var task := Step(p, s, event).active[n];
      && n in s.active
      && (s.active[n] == task ||
          (event == Fail(n, task.error) && (task.error == StorageFull || s.active[n] == Uploading(3))))
  {
  }

  lemma TriesOnlyGrow(p: Plan, completed: set<nat>, s: State, event: Event, n: nat)
    requires Inv(p, completed, s) && Enabled(p, s, event) && n in s.started
    ensures n in Step(p, s, event).started && Step(p, s, event).started[n] >= s.started[n]
  {
    if event.Launch? {
      assert s.pending[0] in s.pending;
    }
  }

  function Min(a: int, b: int): int {
    if a < b then a else b
  }

  function Max(a: int, b: int): int {
    if a > b then a else b
  }

  lemma WidthChanges(p: Plan, s: State, event: Event)
    requires PoolInv(s) && Enabled(p, s, event)
    ensures
      Step(p, s, event).limit ==
      match event
      case Put(_, fast) => if fast then Min(4, s.limit + 1) else Max(1, s.limit - 1)
      case Fail(_, _) => 1
      case _ => s.limit
  {
  }

  /** The parts wait in ascending order, and those tried so far come before them. */
  ghost predicate InOrder(s: State) {
    && (forall i, j :: 0 <= i < j < |s.pending| ==> s.pending[i] < s.pending[j])
    && (forall n, m :: n in s.started && m in s.pending ==> n < m)
  }

  lemma StepKeepsOrder(p: Plan, completed: set<nat>, s: State, event: Event)
    requires Inv(p, completed, s) && InOrder(s) && Enabled(p, s, event)
    ensures InOrder(Step(p, s, event))
  {
    var t := Step(p, s, event);
    if event.Launch? {
      forall n, m | n in t.started && m in t.pending ensures n < m {
        var i :| 0 <= i < |t.pending| && t.pending[i] == m;
        assert s.pending[i + 1] == m && m in s.pending;
      }
    } else {
      assert forall n :: n in t.started ==> n in s.started;
    }
  }

  // ------------------------------------------------------------------ the report

  /** The bytes `report` shows. */
  function Reported(p: Plan, s: State): nat {
    s.doneBytes + Sum(s.inFlight, p.partCount)
  }

  function UnderWay(s: State, n: nat): nat {
    if n in s.inFlight then s.inFlight[n] else 0
  }

  /**
    What an event does to the report: progress shows the loaded bytes, capped at
    the part; a finished part counts in full; a failed try takes its bytes back.
  */
  lemma ReportedChanges(p: Plan, completed: set<nat>, s: State, event: Event)
    requires Inv(p, completed, s) && Enabled(p, s, event)
    ensures
      var before, after := Reported(p, s), Reported(p, Step(p, s, event));
      match event
      case Launch => after == before
      case Progress(n, loaded) =>
        after == before - UnderWay(s, n) + if loaded <= Length(p, n) then loaded else Length(p, n)
      case Put(n, _) => after == before - UnderWay(s, n) + Length(p, n) >= before
      case Fail(n, _) => after == before - UnderWay(s, n)
      case Settle(_) => after == before
  {
    match event
    case Launch =>
    case Progress(n, loaded) =>
      SumUpdate(s.inFlight, p.partCount, n, if loaded < Length(p, n) then loaded else Length(p, n));
    case Put(n, _) => SumUpdate(s.inFlight, p.partCount, n, 0);
    case Fail(n, _) => SumUpdate(s.inFlight, p.partCount, n, 0);
    case Settle(_) =>
  }

  // ---------------------------------------------------------------- the measure

  function Weight(task: Task): nat {
    match task
    case Uploading(tries) => if tries <= MAX_TRIES then MAX_TRIES + 2 - tries else 2
    case Finished => 1
    case Rejected(_) => 1
  }

  function Weights(active: map<nat, Task>): map<nat, nat> {
    map n | n in active :: Weight(active[n])
  }

  /** What is left to do: every event but a progress report lowers it. */
  function Work(p: Plan, s: State): nat {
    (MAX_TRIES + 2) * |s.pending| + Sum(Weights(s.active), p.partCount)
  }

  lemma WeightChanges(active: map<nat, Task>, k: nat, n: nat, task: Task)
    requires 1 <= n <= k
    ensures Sum(Weights(active[n := task]), k) ==
      Sum(Weights(active), k) - (if n in active then Weight(active[n]) else 0) + Weight(task)
    ensures Sum(Weights(active - {n}), k) == Sum(Weights(active), k) - (if n in active then Weight(active[n]) else 0)
  {
    SumUpdate(Weights(active), k, n, Weight(task));
    assert Weights(active)[n := Weight(task)] == Weights(active[n := task]);
    assert Weights(active) - {n} == Weights(active - {n});
  }

  lemma EventDoesWork(p: Plan, completed: set<nat>, s: State, event: Event)
    requires Inv(p, completed, s) && Enabled(p, s, event)
    ensures event.Progress? ==> Work(p, Step(p, s, event)) == Work(p, s)
    ensures !event.Progress? ==> Work(p, Step(p, s, event)) < Work(p, s)
  {
    match event
    case Launch =>
      var n := s.pending[0];
      assert n in s.pending;
      WeightChanges(s.active, p.partCount, n, Uploading(1));
    case Progress(_, _) =>
    case Put(n, _) =>
      WeightChanges(s.active, p.partCount, n, Finished);
    case Fail(n, error) =>
      WeightChanges(s.active, p.partCount, n, Rejected(error));
      WeightChanges(s.active, p.partCount, n, Uploading(s.active[n].tries + 1));
    case Settle(n) =>
      WeightChanges(s.active, p.partCount, n, Finished);
  }

  // ------------------------------------------------------------ what a state means

  /** The loop is over and the pool has emptied. */
  predicate Ended(s: State) {
    s.active == map[] && (s.failure.Some? || s.pending == [])
  }

  /** The uploaded bytes and those under way never exceed the file. */
  lemma NeverOverReported(p: Plan, completed: set<nat>, s: State)
    requires Inv(p, completed, s)
    ensures s.doneBytes + Sum(s.inFlight, p.partCount) <= p.size
  {
    var done, all := Lengths(p, completed + PutSet(s)), Lengths(p, AllParts(p));
    SumSplit(done, s.inFlight, p.partCount);
    SumBound(done + s.inFlight, all, p.partCount);
    AllBytes(p);
  }

  predicate OnceIn(xs: seq<nat>, n: nat) {
    exists i :: 0 <= i < |xs| && xs[i] == n && forall j :: 0 <= j < |xs| && xs[j] == n ==> j == i
  }

  lemma DistinctIsOnce(xs: seq<nat>, n: nat)
    requires Distinct(xs) && n in xs
    ensures OnceIn(xs, n)
  {
    var i :| 0 <= i < |xs| && xs[i] == n;
  }

  /** Without a failure every part was complete at the start or got through exactly once, never both. */
  lemma EndIsComplete(p: Plan, completed: set<nat>, s: State, n: nat)
    requires Inv(p, completed, s) && Ended(s) && s.failure == None && IsPart(p, n)
    ensures n in completed <==> n !in s.put
    ensures n in s.put ==> OnceIn(s.put, n)
  {
    if n in s.put {
      DistinctIsOnce(s.put, n);
    }
  }

  lemma EndCountsFile(p: Plan, completed: set<nat>, s: State)
    requires Inv(p, completed, s) && Ended(s) && s.failure == None
    ensures s.doneBytes == p.size && s.inFlight == map[]
  {
    forall n ensures n in completed + PutSet(s) <==> n in AllParts(p) {
      if IsPart(p, n) {
        EndIsComplete(p, completed, s, n);
      }
    }
    AllBytes(p);
    assert completed + PutSet(s) == AllParts(p);
  }

  lemma EndIsFull(p: Plan, completed: set<nat>, s: State)
    requires Inv(p, completed, s) && Ended(s) && s.failure == None
    ensures s.doneBytes == p.size && s.inFlight == map[]
    ensures forall n :: IsPart(p, n) ==> (n in completed <==> n !in s.put) && (n in s.put ==> OnceIn(s.put, n))
  {
    EndCountsFile(p, completed, s);
    forall n | IsPart(p, n) ensures (n in completed <==> n !in s.put) && (n in s.put ==> OnceIn(s.put, n)) {
      EndIsComplete(p, completed, s, n);
    }
  }

  /** After a failure no part is launched and no try is started. */
  lemma FailureStopsTries(p: Plan, s: State, event: Event)
    requires s.failure.Some? && Enabled(p, s, event)
    ensures Step(p, s, event).started == s.started && Step(p, s, event).pending == s.pending
    ensures Step(p, s, event).failure == s.failure
  {
  }

  /** Right after a failed try no further part is launched. */
  lemma FailureClosesPool(p: Plan, s: State, n: nat, error: Error)
    requires IsPart(p, n) && Enabled(p, s, Fail(n, error))
    ensures !Enabled(p, Step(p, s, Fail(n, error)), Launch)
  {
    var t := Failed(s, n, error);
    assert {n} <= t.active.Keys;
    assert |{n}| == 1;
    SubsetIsSmaller({n}, t.active.Keys);
  }

  lemma SubsetIsSmaller(xs: set<nat>, ys: set<nat>)
    requires xs <= ys
    ensures |xs| <= |ys|
  {
    assert ys == xs + (ys - xs);
  }
}
