/** `uploadMultipart`: the bounded pool that uploads the parts of one file. */
module Upload {
  import opened Wrappers
  import opened UploadState

  /**
    Checks what the server says about the upload. Sizes the response leaves out
    read as zero.
  */
  method CheckParameters(size: nat, partSize: nat, partCount: nat) returns (r: Result<Plan, Error>)
    ensures r.Ok? <==> partSize > 0 && partCount > 0 && partCount == CeilDiv(size, partSize)
    ensures r.Ok? ==> r.value == Plan(size, partSize, partCount)
    ensures r.Ok? ==> size > 0
    ensures r.Err? ==> r.error == InvalidParameters
  {
    if partSize == 0 || partCount == 0 || partCount != CeilDiv(size, partSize) {
      return Err(InvalidParameters);
    }
    r := Ok(Plan(size, partSize, partCount));
  }

  /** Adds up the parts the server already has; a number that is no part is refused. */
  method CountCompleted(p: Plan, completed: set<nat>) returns (r: Result<nat, Error>)
    ensures r.Ok? <==> forall n :: n in completed ==> IsPart(p, n)
    ensures r.Ok? ==> r.value == Bytes(p, completed)
    ensures r.Err? ==> r.error == InvalidPart
  {
    var bytes := 0;
    var rest := completed;
    assert Lengths(p, completed - rest) == map[];
    NoSum(p.partCount);
    while rest != {}
      invariant rest <= completed
      invariant forall n :: n in completed - rest ==> IsPart(p, n)
      invariant bytes == Bytes(p, completed - rest)
      decreases rest
    {
      var n :| n in rest;
      if !IsPart(p, n) {
        return Err(InvalidPart);
      }
      MoreBytes(p, completed - rest, n);
      assert completed - (rest - {n}) == completed - rest + {n};
      bytes := bytes + Length(p, n);
      rest := rest - {n};
    }
    assert completed - rest == completed;
    r := Ok(bytes);
  }

  /** What every event keeps, and the work it does. */
  lemma TakesEvent(p: Plan, completed: set<nat>, s: State, event: Event)
    requires Inv(p, completed, s) && FailureEarned(s) && Enabled(p, s, event)
    ensures Inv(p, completed, Step(p, s, event)) && FailureEarned(Step(p, s, event))
    ensures event.Progress? ==> Work(p, Step(p, s, event)) == Work(p, s)
    ensures !event.Progress? ==> Work(p, Step(p, s, event)) < Work(p, s)
  {
    StepKeepsInv(p, completed, s, event);
    StepKeepsFailureEarned(p, completed, s, event);
    EventDoesWork(p, completed, s, event);
  }

  class MultipartUpload {
    const plan: Plan
    const completed: set<nat>
    var doneBytes: nat
    var limit: nat
    var failure: Option<Error>
    var pending: seq<nat>
    var active: map<nat, Task>
    var inFlight: map<nat, nat>
    var put: seq<nat>
    var started: map<nat, nat>

    ghost function View(): State
      reads this
    {
      State(doneBytes, limit, failure, pending, active, inFlight, put, started)
    }

    ghost predicate Valid()
      reads this
    {
      Inv(plan, completed, View()) && FailureEarned(View())
    }

    constructor (plan: Plan, completed: set<nat>, doneBytes: nat)
      requires forall n :: n in completed ==> IsPart(plan, n)
      requires doneBytes == Bytes(plan, completed)
      ensures Valid() && View() == Initial(plan, completed, doneBytes)
      ensures this.plan == plan && this.completed == completed
    {
      this.plan := plan;
      this.completed := completed;
      this.doneBytes := doneBytes;
      this.limit := 1;
      this.failure := None;
      this.pending := Pending(plan.partCount, completed);
      this.active := map[];
      this.inFlight := map[];
      this.put := [];
      this.started := map[];
      new;
      InitialInv(plan, completed);
    }

    /** What `report` shows: the finished parts and the bytes under way. */
    method Report() returns (loaded: nat)
      requires Valid()
      ensures loaded == doneBytes + Sum(inFlight, plan.partCount)
      ensures loaded <= plan.size
    {
      loaded := doneBytes;
      var rest := inFlight;
      while rest != map[]
        invariant forall n :: n in rest ==> n in inFlight && rest[n] == inFlight[n]
        invariant loaded + Sum(rest, plan.partCount) == doneBytes + Sum(inFlight, plan.partCount)
        decreases rest.Keys
      {
        var n :| n in rest;
        assert IsPart(plan, n);
        SumUpdate(rest, plan.partCount, n, 0);
        loaded := loaded + rest[n];
        rest := rest - {n};
      }
      NoSum(plan.partCount);
      NeverOverReported(plan, completed, View());
    }

    method LaunchNext()
      requires Enabled(plan, View(), Launch)
      modifies this`pending, this`active, this`started
      ensures View() == Step(plan, old(View()), Launch)
    {
      var n := pending[0];
      pending := pending[1..];
      active := active[n := Uploading(1)];
      started := started[n := 1];
    }

    method OnProgress(n: nat, loaded: nat)
      requires Enabled(plan, View(), Progress(n, loaded))
      modifies this`inFlight
      ensures View() == Step(plan, old(View()), Progress(n, loaded))
    {
      inFlight := inFlight[n := if loaded < Length(plan, n) then loaded else Length(plan, n)];
    }

    method OnPut(n: nat, fast: bool)
      requires Enabled(plan, View(), Put(n, fast))
      modifies this`limit, this`inFlight, this`doneBytes, this`active, this`put
      ensures View() == Step(plan, old(View()), Put(n, fast))
    {
      limit := if fast then if limit + 1 < MAX_PARALLEL_PARTS then limit + 1 else MAX_PARALLEL_PARTS
               else if limit > 2 then limit - 1 else 1;
      inFlight := inFlight - {n};
      doneBytes := doneBytes + Length(plan, n);
      active := active[n := Finished];
      put := put + [n];
    }

    method OnFailedTry(n: nat, error: Error)
      requires Enabled(plan, View(), Fail(n, error))
      modifies this`limit, this`inFlight, this`active, this`started
      ensures View() == Step(plan, old(View()), Fail(n, error))
    {
      inFlight := inFlight - {n};
      limit := 1;
      var tries := active[n].tries;
      if error.StorageFull? || tries >= MAX_TRIES || failure.Some? {
        active := active[n := Rejected(error)];
      } else {
        active := active[n := Uploading(tries + 1)];
        started := started[n := tries + 1];
      }
    }

    method OnSettled(n: nat)
      requires Enabled(plan, View(), Settle(n))
      modifies this`active, this`failure
      ensures View() == Step(plan, old(View()), Settle(n))
    {
      if failure == None && active[n].Rejected? {
        failure := Some(active[n].error);
      }
      active := active - {n};
    }

    /** Any number of progress reports of the parts under way. */
    method ReportProgress()
      requires Valid() && active != map[]
      modifies this`inFlight
      ensures Valid() && Work(plan, View()) == old(Work(plan, View()))
    {
      var reports: nat := *;
      while reports > 0
        invariant Valid() && Work(plan, View()) == old(Work(plan, View()))
      {
        var n: nat :| n in active;
        assert IsPart(plan, n);
        if active[n].Uploading? {
          var loaded: nat := *;
          TakesEvent(plan, completed, View(), Progress(n, loaded));
          OnProgress(n, loaded);
        }
        reports := reports - 1;
      }
    }

    /** One turn of some part of the pool, after any number of progress reports. */
    method TakeTurn()
      requires Valid() && active != map[]
      modifies this
      ensures Valid()
      ensures Work(plan, View()) < old(Work(plan, View()))
      ensures pending == old(pending) && active.Keys <= old(active.Keys)
      ensures old(failure).Some? ==> failure == old(failure)
    {
      var n: nat :| n in active;
      assert IsPart(plan, n);
      if active[n].Uploading? {
        ReportProgress();
        if * {
          var fast: bool := *;
          TakesEvent(plan, completed, View(), Put(n, fast));
          OnPut(n, fast);
        } else {
          var error: Error := *;
          TakesEvent(plan, completed, View(), Fail(n, error));
          OnFailedTry(n, error);
        }
      } else {
        TakesEvent(plan, completed, View(), Settle(n));
        OnSettled(n);
      }
    }

    /** `Promise.race`: turns of the pool until some part has settled, and perhaps more. */
    method Race()
      requires Valid() && active != map[]
      modifies this
      ensures Valid() && Work(plan, View()) < old(Work(plan, View()))
      ensures pending == old(pending)
      ensures old(failure).Some? ==> failure == old(failure)
    {
      var before := active.Keys;
      TakeTurn();
      var more: bool := *;
      while active != map[] && (more || active.Keys == before)
        invariant Valid() && Work(plan, View()) < old(Work(plan, View()))
        invariant pending == old(pending) && active.Keys <= old(active.Keys)
        invariant old(failure).Some? ==> failure == old(failure)
        decreases Work(plan, View())
      {
        TakeTurn();
        more := *;
      }
    }

    method FillPool()
      requires Valid()
      modifies this`pending, this`active, this`started
      ensures Valid() && Work(plan, View()) <= old(Work(plan, View()))
      ensures failure == None && (old(pending) != [] || old(active) != map[]) ==> active != map[]
      ensures failure.Some? || |active| >= limit || pending == []
    {
      while failure == None && |active| < limit && pending != []
        invariant Valid() && Work(plan, View()) <= old(Work(plan, View()))
        invariant old(pending) != [] || old(active) != map[] ==> pending != [] || active != map[]
        decreases |pending|
      {
        TakesEvent(plan, completed, View(), Launch);
        LaunchNext();
      }
    }

    /**
      Returns normally exactly when every part was complete at the start or got
      through once, all bytes are counted, and nothing is left in the pool; it
      fails only when storage is full or some part has had its three tries.
    */
    method Run() returns (r: Result<(), Error>)
      requires Valid() && View() == Initial(plan, completed, doneBytes)
      modifies this
      ensures Valid() && Ended(View())
      ensures r == (if failure.Some? then Err(failure.value) else Ok(()))
      ensures r.Err? ==> r.error == StorageFull || exists n :: n in started && started[n] == 3
      ensures r.Ok? ==> doneBytes == plan.size && inFlight == map[]
      ensures r.Ok? ==> forall n :: IsPart(plan, n) ==>
        (n in completed <==> n !in put) && (n in put ==> OnceIn(put, n))
    {
      while failure == None && (pending != [] || active != map[])
        invariant Valid()
        decreases Work(plan, View())
      {
        FillPool();
        if active != map[] {
          Race();
        }
      }
      while active != map[]
        invariant Valid() && (failure.Some? || pending == [])
        decreases Work(plan, View())
      {
        Race();
      }
      if failure.Some? {
        return Err(failure.value);
      }
      EndIsFull(plan, completed, View());
      r := Ok(());
    }
  }

  /** The whole call: refuses bad parameters and bad part numbers, then runs the pool. */
  method UploadMultipart(size: nat, partSize: nat, partCount: nat, completed: set<nat>)
    returns (r: Result<MultipartUpload, Error>, ghost tries: map<nat, nat>)
    ensures r.Err? ==>
      || r.error == InvalidParameters || r.error == InvalidPart || r.error == StorageFull
      || exists n :: n in tries && tries[n] == 3
    ensures r.Ok? ==>
      var u := r.value;
      && u.plan == Plan(size, partSize, partCount) && u.completed == completed
      && u.doneBytes == size
      && (forall n :: IsPart(u.plan, n) ==> (n in completed <==> n !in u.put) && (n in u.put ==> OnceIn(u.put, n)))
    ensures (partSize == 0 || partCount == 0 || partCount != CeilDiv(size, partSize)) ==> r == Err(InvalidParameters)
    ensures (
      && partSize > 0 && 0 < partCount == CeilDiv(size, partSize)
      && exists n :: n in completed && !(1 <= n <= partCount)) ==>
      r == Err(InvalidPart)
  {
    tries := map[];
    var plan := CheckParameters(size, partSize, partCount);
    if plan.Err? {
      return Err(plan.error), tries;
    }
    var bytes := CountCompleted(plan.value, completed);
    if bytes.Err? {
      return Err(bytes.error), tries;
    }
    var upload := new MultipartUpload(plan.value, completed, bytes.value);
    var outcome := upload.Run();
    tries := upload.started;
    r := if outcome.Ok? then Ok(upload) else Err(outcome.error);
  }
}
