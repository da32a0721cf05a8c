/**
  What user actions come to over whole runs of the call machine: a hang-up ends
  the call, a start that meets no failure ends connected, and a retry clears
  what failed leaves left behind.
*/
module CallOutcomes {
  import opened Wrappers
  import opened CallSessions

  ghost predicate TakesStep(states: seq<Calls>, events: seq<Event>, n: nat)
    requires n < |events| && |states| == |events| + 1
  {
    Refs(states[n]) && Enabled(states[n], events[n]) && states[n + 1] == Step(states[n], events[n])
  }

  /** A run from the start together with the events it takes. */
  ghost predicate IsTrace(states: seq<Calls>, events: seq<Event>) {
    && |states| == |events| + 1 && states[0] == START
    && forall n :: 0 <= n < |events| ==> TakesStep(states, events, n)
  }

  lemma {:induction false} TraceKeepsInv(states: seq<Calls>, events: seq<Event>, n: nat)
    requires IsTrace(states, events) && n < |states|
    ensures Inv(states[n]) && PendingVisited(states[n])
  {
    if n > 0 {
      TraceKeepsInv(states, events, n - 1);
      assert TakesStep(states, events, n - 1);
      StepKeepsInv(states[n - 1], events[n - 1]);
      StepKeepsPendingVisited(states[n - 1], events[n - 1]);
    }
  }

  predicate Quiet(s: Calls) {
    s.running == Idle && s.queue == []
  }

  // ------------------------------------------------------------- one user action

  /** `target` is the active call and the room, if one is named, is the room of that call. */
  predicate HangsUp(s: Calls, target: CallTarget, ofRoom: Option<nat>) {
    && s.active.Some? && s.active.value < |s.attempts| && s.attempts[s.active.value].target == target
    && (ofRoom.None? || s.attempts[s.active.value].room == ofRoom)
  }

  /** A hang-up of the active call ends it and queues its release; any other hang-up is stale and changes nothing. */
  lemma EndCallMeans(s: Calls, target: CallTarget, ofRoom: Option<nat>)
    requires Inv(s)
    ensures
      var t := Step(s, EndCall(target, ofRoom));
      && (HangsUp(s, target, ofRoom) ==>
            t.active == None && QueuedRelease(t.queue, s.active.value) && t == s.(active := None, queue := t.queue))
      && (!HangsUp(s, target, ofRoom) ==> t == s)
  {
    var t := Step(s, EndCall(target, ofRoom));
    if HangsUp(s, target, ofRoom) {
      assert ReleasedBy(t.queue[|s.queue|], s.active.value);
    }
  }

  /** Connected to `target` already, in a room of its own. */
  predicate IsConnected(s: Calls, target: CallTarget, connected: bool) {
    && s.active.Some? && s.active.value < |s.attempts| && s.attempts[s.active.value].target == target
    && s.attempts[s.active.value].room.Some? && connected
  }

  /** A start replaces the active call by a new attempt whose start is queued, and queues the release of the old one. */
  lemma StartCallMeans(s: Calls, target: CallTarget, connected: bool)
    requires Inv(s)
    ensures
      var t := Step(s, StartCall(target, connected));
      && (IsConnected(s, target, connected) ==> t == s)
      && (!IsConnected(s, target, connected) ==>
            && t.attempts == s.attempts + [Attempt(target, false, None)] && t.active == Some(|s.attempts|)
            && QueuedStart(t.queue, |s.attempts|)
            && (s.active.Some? ==> QueuedRelease(t.queue, s.active.value)))
  {
    var t := Step(s, StartCall(target, connected));
    if !IsConnected(s, target, connected) {
      var w := t.queue[|s.queue|];
      assert w.StartWork? && w.attempt == |s.attempts|;
      assert s.active.Some? ==> ReleasedBy(w, s.active.value);
    }
  }

  // ------------------------------------------------------------ what a turn leaves alone

  /** A release changes no more than one claim, the pending leaves and where the work item awaits. */
  predicate SameCalls(s: Calls, t: Calls) {
    && t.active == s.active && t.queue == s.queue && |t.attempts| == |s.attempts|
    && forall i :: 0 <= i < |s.attempts| ==>
         t.attempts[i].target == s.attempts[i].target && t.attempts[i].room == s.attempts[i].room
  }

  lemma {:induction false} ClearNextIsLocal(s: Calls, a: nat, rest: seq<nat>)
    requires a < |s.attempts| && Names(|s.attempts|, rest)
    ensures SameCalls(s, ClearNext(s, a, rest)) && Joined(ClearNext(s, a, rest).running) == Some(a)
    ensures forall p :: p in ClearNext(s, a, rest).pendingLeaves ==> p in s.pendingLeaves
    ensures forall b: nat :: Claims(ClearNext(s, a, rest).attempts, b) ==> Claims(s.attempts, b)
    decreases |rest|
  {
    if rest != [] && s.attempts[rest[0]].target != s.attempts[a].target {
      ClearNextIsLocal(s, a, rest[1..]);
    }
  }

  /** A user action that changes the active call. */
  predicate Interferes(s: Calls, e: Event) {
    || (e.StartCall? && !IsConnected(s, e.target, e.connected))
    || (e.EndCall? && HangsUp(s, e.target, e.ofRoom))
  }

  /** The active call is only ever given up by a user action or by the end of its own failed start. */
  lemma ActiveStays(s: Calls, e: Event)
    requires Refs(s) && Enabled(s, e) && !Interferes(s, e)
    ensures Step(s, e).active == s.active ||
            (s.active.Some? && s.running == Released(Fail(s.active.value)) && Step(s, e).active == None)
  {
    TurnIsLocal(s, e);
  }

  lemma TurnIsLocal(s: Calls, e: Event)
    requires Refs(s) && Enabled(s, e)
    ensures e == JoinAcked ==> SameCalls(s, Step(s, e))
    ensures e == Resume && s.running.after.ClearPending? ==>
      SameCalls(s, Step(s, e)) && Joined(Step(s, e).running) == Some(s.running.after.attempt)
    ensures e == JoinAcked && s.active == Some(s.running.attempt) ==> Joined(Step(s, e).running) == s.active
    ensures e != LeaveFailed ==> forall p :: p in Step(s, e).pendingLeaves ==> p in s.pendingLeaves
  {
    if e == JoinAcked {
      var t := WithClaim(s, s.running.attempt, true);
      ClearNextIsLocal(t, s.running.attempt, t.pendingLeaves);
    } else if e == Resume && s.running.after.ClearPending? {
      ClearNextIsLocal(s, s.running.after.attempt, s.running.after.rest);
    }
  }

  // -------------------------------------------------------------- how a start ends

  /** The start of `a` learns that it failed. */
  predicate Fails(s: Calls, e: Event, a: nat) {
    Starter(s.running) == Some(a) && (e == UrlSettled(false) || e == JoinRejected || e == ConnectSettled(false))
  }

  /** Nothing has gone wrong with the start of `a`, and nobody has ended its call. */
  predicate OnCourse(s: Calls, a: nat) {
    && s.active == Some(a) && a < |s.attempts| && Failing(s.running) != Some(a)
    && (s.attempts[a].claimedPresence && s.attempts[a].room.None? ==> Joined(s.running) == Some(a))
  }

  predicate GivenUp(s: Calls, a: nat) {
    s.active == None || (s.active == Some(a) && Failing(s.running) == Some(a))
  }

  /** A claim is only ever made by the answer to a join. */
  lemma ClaimsAreJoined(s: Calls, e: Event, a: nat)
    requires Refs(s) && Enabled(s, e) && a < |s.attempts| && Claims(Step(s, e).attempts, a)
    ensures Claims(s.attempts, a) || (e == JoinAcked && s.running.attempt == a)
  {
    if e == JoinAcked {
      var t := WithClaim(s, s.running.attempt, true);
      ClearNextIsLocal(t, s.running.attempt, t.pendingLeaves);
    } else if e == Resume && s.running.after.ClearPending? {
      ClearNextIsLocal(s, s.running.after.attempt, s.running.after.rest);
    }
  }

  /** A start that has claimed presence goes on to connect. */
  lemma StaysJoined(s: Calls, e: Event, a: nat)
    requires Refs(s) && Enabled(s, e) && a < |s.attempts| && s.active == Some(a) && Joined(s.running) == Some(a)
    requires !Interferes(s, e) && s.attempts[a].room.None? && !Fails(s, e, a)
    ensures a < |Step(s, e).attempts|
    ensures Joined(Step(s, e).running) == Some(a) || Step(s, e).attempts[a].room.Some?
  {
    TurnIsLocal(s, e);
  }

  lemma StaysOnCourse(s: Calls, e: Event, a: nat)
    requires Inv(s) && Enabled(s, e) && !Interferes(s, e) && OnCourse(s, a)
    ensures if Fails(s, e, a) then GivenUp(Step(s, e), a) else OnCourse(Step(s, e), a)
  {
    ActiveStays(s, e);
    if Fails(s, e, a) {
      FailureGivesUp(s, e, a);
    } else {
      NotFailing(s, e, a);
      RoomsStay(s, e, a);
      if Claims(Step(s, e).attempts, a) {
        ClaimsAreJoined(s, e, a);
        if e == JoinAcked && s.running.attempt == a {
          TurnIsLocal(s, e);
        } else if s.attempts[a].room.None? {
          StaysJoined(s, e, a);
        }
      }
    }
  }

  /** A start whose call the user has ended or replaced gives up at the next answer it gets. */
  lemma CancelledGivesUp(s: Calls, e: Event, a: nat)
    requires Refs(s) && Enabled(s, e) && s.active != Some(a)
    requires Starter(s.running) == Some(a)
    requires e.UrlSettled? || e == JoinAcked || e == JoinRejected || e.RoomAttached? || e.ConnectSettled?
    ensures Failing(Step(s, e).running) == Some(a)
  {
  }

  lemma FailureGivesUp(s: Calls, e: Event, a: nat)
    requires Refs(s) && Enabled(s, e) && s.active == Some(a) && Fails(s, e, a)
    ensures GivenUp(Step(s, e), a)
  {
  }

  lemma NotFailing(s: Calls, e: Event, a: nat)
    requires Inv(s) && Enabled(s, e) && s.active == Some(a) && Failing(s.running) != Some(a) && !Fails(s, e, a)
    ensures Failing(Step(s, e).running) != Some(a)
  {
    TurnIsLocal(s, e);
  }

  /** Attempts keep their targets and, once they have one, their rooms. */
  lemma RoomsStay(s: Calls, e: Event, a: nat)
    requires Refs(s) && Enabled(s, e) && a < |s.attempts|
    ensures a < |Step(s, e).attempts| && Step(s, e).attempts[a].target == s.attempts[a].target
    ensures s.attempts[a].room.Some? ==> Step(s, e).attempts[a].room.Some?
  {
    TurnIsLocal(s, e);
  }

  lemma StaysGivenUp(s: Calls, e: Event, a: nat)
    requires Refs(s) && Enabled(s, e) && !Interferes(s, e) && GivenUp(s, a)
    ensures GivenUp(Step(s, e), a)
  {
    TurnIsLocal(s, e);
    ActiveStays(s, e);
  }

  ghost predicate FailedBetween(states: seq<Calls>, events: seq<Event>, m: nat, n: nat, a: nat)
    requires |states| == |events| + 1 && n < |states|
  {
    exists k :: m < k < n && Fails(states[k], events[k], a)
  }

  /** No user action between `m` and `n` changes the active call; stale hang-ups and repeated starts may occur. */
  ghost predicate Undisturbed(states: seq<Calls>, events: seq<Event>, m: nat, n: nat)
    requires |states| == |events| + 1 && n < |states|
  {
    forall k :: m < k < n ==> !Interferes(states[k], events[k])
  }

  lemma {:induction false} StartProgress(states: seq<Calls>, events: seq<Event>, m: nat, n: nat, a: nat)
    requires IsTrace(states, events) && m < n < |states| && Undisturbed(states, events, m, n)
    requires OnCourse(states[m + 1], a)
    ensures if FailedBetween(states, events, m, n, a) then GivenUp(states[n], a) else OnCourse(states[n], a)
  {
    if n > m + 1 {
      StartProgress(states, events, m, n - 1, a);
      FailedSplits(states, events, m, n, a);
      StartAdvances(states, events, n - 1, a);
    }
  }

  lemma FailedSplits(states: seq<Calls>, events: seq<Event>, m: nat, n: nat, a: nat)
    requires |states| == |events| + 1 && m + 1 < n < |states|
    ensures FailedBetween(states, events, m, n, a) <==>
      FailedBetween(states, events, m, n - 1, a) || Fails(states[n - 1], events[n - 1], a)
  {
  }

  lemma StartAdvances(states: seq<Calls>, events: seq<Event>, k: nat, a: nat)
    requires IsTrace(states, events) && k < |events| && !Interferes(states[k], events[k])
    ensures OnCourse(states[k], a) ==>
      if Fails(states[k], events[k], a) then GivenUp(states[k + 1], a) else OnCourse(states[k + 1], a)
    ensures GivenUp(states[k], a) ==> GivenUp(states[k + 1], a)
  {
    TraceKeepsInv(states, events, k);
    assert TakesStep(states, events, k);
    if OnCourse(states[k], a) {
      StaysOnCourse(states[k], events[k], a);
    }
    if GivenUp(states[k], a) {
      StaysGivenUp(states[k], events[k], a);
    }
  }

  /**
    How a start ends, in every run that falls quiet with the user not changing
    the call in between: with the caller in a room of the target and present
    on the server if its URL, its join and its connection came through, and
    with no active call otherwise.
  */
  lemma StartOutcome(states: seq<Calls>, events: seq<Event>, m: nat, n: nat)
    requires IsTrace(states, events) && m < n < |states| && Undisturbed(states, events, m, n)
    requires events[m].StartCall? && states[m + 1] != states[m] && Quiet(states[n])
    ensures
      var a, t := |states[m].attempts|, states[n];
      if FailedBetween(states, events, m, n, a) then t.active == None
      else
        && t.active == Some(a) && a < |t.attempts|
        && t.attempts[a].target == events[m].target && t.attempts[a].room.Some? && t.attempts[a].claimedPresence
        && events[m].target in t.presence
  {
    var a, s, t := |states[m].attempts|, states[m], states[n];
    TraceKeepsInv(states, events, m);
    TraceKeepsInv(states, events, n);
    assert TakesStep(states, events, m);
    StartCallMeans(s, events[m].target, events[m].connected);
    assert Joined(s.running) != Some(a) && Failing(s.running) != Some(a);
    StartProgress(states, events, m, n, a);
    TargetsStay(states, events, m + 1, n, a);
    QuietAgrees(t);
  }

  lemma {:induction false} TargetsStay(states: seq<Calls>, events: seq<Event>, m: nat, n: nat, a: nat)
    requires IsTrace(states, events) && m <= n < |states| && a < |states[m].attempts|
    ensures a < |states[n].attempts| && states[n].attempts[a].target == states[m].attempts[a].target
  {
    if m < n {
      TargetsStay(states, events, m, n - 1, a);
      assert TakesStep(states, events, n - 1);
      RoomsStay(states[n - 1], events[n - 1], a);
    }
  }

  // ---------------------------------------------------------------- how a hang-up ends

  lemma {:induction false} NoCallWithoutStart(states: seq<Calls>, events: seq<Event>, m: nat, n: nat)
    requires IsTrace(states, events) && m <= n < |states| && states[m].active == None
    requires forall k :: m <= k < n ==> !events[k].StartCall?
    ensures states[n].active == None
  {
    if m < n {
      NoCallWithoutStart(states, events, m, n - 1);
      assert TakesStep(states, events, n - 1);
      TurnIsLocal(states[n - 1], events[n - 1]);
    }
  }

  /**
    A hang-up of the active call ends it for good: until the user starts a call
    again there is none, and once the work is done the server has the user
    present nowhere, unless a leave failed and is still pending.
  */
  lemma HangUpEnds(states: seq<Calls>, events: seq<Event>, m: nat, n: nat)
    requires IsTrace(states, events) && m < n < |states|
    requires TakesStep(states, events, m) && events[m].EndCall?
    requires HangsUp(states[m], events[m].target, events[m].ofRoom)
    requires forall k :: m < k < n ==> !events[k].StartCall?
    ensures states[n].active == None
    ensures Quiet(states[n]) && states[n].pendingLeaves == [] ==> states[n].presence == {}
  {
    TraceKeepsInv(states, events, m);
    TraceKeepsInv(states, events, n);
    EndCallMeans(states[m], events[m].target, events[m].ofRoom);
    NoCallWithoutStart(states, events, m + 1, n);
    if Quiet(states[n]) {
      QuietAgrees(states[n]);
    }
  }

  // ---------------------------------------------------------------- pending leaves

  /** The pending attempt has the target of the active call, which has claimed presence there. */
  predicate InTheWay(s: Calls, p: nat) {
    && p < |s.attempts| && ActiveClaims(s) && s.active.value != p
    && s.attempts[s.active.value].target == s.attempts[p].target
  }

  /** Pending attempts are claimed, and the start of the active call has yet to visit those in its way. */
  predicate PendingVisited(s: Calls) {
    && (forall p :: p in s.pendingLeaves ==> Claims(s.attempts, p))
    && (forall p :: p in s.pendingLeaves && InTheWay(s, p) ==>
          s.running.Released? && s.running.after.ClearPending? && Some(s.running.after.attempt) == s.active
          && p in s.running.after.rest)
  }

  lemma {:induction false} ClearNextVisits(s: Calls, a: nat, rest: seq<nat>)
    requires a < |s.attempts| && Names(|s.attempts|, rest)
    requires PendingVisited(s.(running := Released(ClearPending(a, rest))))
    requires s.active == Some(a) ==> Claims(s.attempts, a) && a !in rest
    ensures PendingVisited(ClearNext(s, a, rest))
    decreases |rest|
  {
    if rest != [] {
      var t := s.(running := Released(ClearPending(a, rest[1..])));
      assert forall p :: p in rest ==> p == rest[0] || p in rest[1..];
      if s.attempts[rest[0]].target != s.attempts[a].target {
        assert forall p :: InTheWay(t, p) ==> InTheWay(s.(running := Released(ClearPending(a, rest))), p);
        ClearNextVisits(s, a, rest[1..]);
      } else {
        var u := Release(s, rest[0], ClearPending(a, rest[1..]));
        assert forall p :: InTheWay(u, p) ==> InTheWay(s.(running := Released(ClearPending(a, rest))), p);
        assert rest[0] in rest;
      }
    }
  }

  lemma StepKeepsPendingVisited(s: Calls, e: Event)
    requires Inv(s) && PendingVisited(s) && Enabled(s, e)
    ensures PendingVisited(Step(s, e))
  {
    var t := Step(s, e);
    if e == JoinAcked && s.active == Some(s.running.attempt) {
      var a := s.running.attempt;
      var u := WithClaim(s, a, true);
      assert forall p :: p in s.pendingLeaves ==> Claims(u.attempts, p) && p != a;
      ClearNextVisits(u, a, u.pendingLeaves);
    } else if e == Resume && s.running.after.ClearPending? {
      assert s == s.(running := Released(s.running.after));
      ClearNextVisits(s, s.running.after.attempt, s.running.after.rest);
    } else {
      OthersKeepPendingVisited(s, e);
    }
  }

  lemma OthersKeepPendingVisited(s: Calls, e: Event)
    requires Inv(s) && PendingVisited(s) && Enabled(s, e)
    requires !(e == JoinAcked && s.active == Some(s.running.attempt))
    requires !(e == Resume && s.running.after.ClearPending?)
    ensures PendingVisited(Step(s, e))
  {
    match e
    case Begin => BeginKeepsPendingVisited(s);
    case Resume => ContinueKeepsPendingVisited(s, s.running.after);
    case UrlSettled(_) => ReleaseKeepsPendingVisited(s, s.running.attempt, Fail(s.running.attempt));
    case JoinAcked =>
      var a := s.running.attempt;
      ReleaseKeepsPendingVisited(WithClaim(s, a, true), a, Fail(a));
    case JoinRejected => ReleaseKeepsPendingVisited(s, s.running.attempt, Fail(s.running.attempt));
    case RoomAttached(room) =>
      var a := s.running.attempt;
      ReleaseKeepsPendingVisited(s.(attempts := s.attempts[a := s.attempts[a].(room := Some(room))]), a, Fail(a));
    case ConnectSettled(_) => ReleaseKeepsPendingVisited(s, s.running.attempt, Fail(s.running.attempt));
    case _ => PlainKeepsPendingVisited(s, e);
  }

  lemma PlainKeepsPendingVisited(s: Calls, e: Event)
    requires Inv(s) && PendingVisited(s) && Enabled(s, e)
    requires UserAction(e) || e.JoinApplied? || e == LeaveApplied || e == LeaveAcked || e == LeaveFailed
    ensures PendingVisited(Step(s, e))
  {
    var t := Step(s, e);
    assert forall p :: p in t.pendingLeaves && InTheWay(t, p) && p in s.pendingLeaves ==> InTheWay(s, p);
  }

  lemma BeginKeepsPendingVisited(s: Calls)
    requires Refs(s) && s.running == Idle && s.queue != [] && PendingVisited(s)
    ensures PendingVisited(BeginStep(s))
  {
    var t := s.(queue := s.queue[1..]);
    assert forall p :: InTheWay(t, p) ==> InTheWay(s, p);
    match s.queue[0]
    case StartWork(a, previous) =>
      if previous.Some? {
        ReleaseKeepsPendingVisited(t, previous.value, Connect(a));
      } else {
        ContinueKeepsPendingVisited(t, Connect(a));
      }
    case EndWork(ended) => ReleaseKeepsPendingVisited(t, ended, Finish);
    case RetryWork => ContinueKeepsPendingVisited(t, RetryNext(s.pendingLeaves));
  }

  lemma ContinueKeepsPendingVisited(s: Calls, after: Then)
    requires ThenNames(|s.attempts|, after) && !after.ClearPending?
    requires PendingVisited(s) && !(s.running.Released? && s.running.after.ClearPending?)
    ensures PendingVisited(Continue(s, after))
  {
    match after
    case Connect(a) => ReleaseKeepsPendingVisited(s, a, Fail(a));
    case RetryNext(rest) =>
      if rest != [] {
        ReleaseKeepsPendingVisited(s, rest[0], RetryNext(rest[1..]));
      }
    case _ =>
  }

  lemma ReleaseKeepsPendingVisited(s: Calls, a: nat, after: Then)
    requires a < |s.attempts| && PendingVisited(s) && !(s.running.Released? && s.running.after.ClearPending?)
    ensures PendingVisited(Release(s, a, after))
  {
    assert forall p :: InTheWay(Release(s, a, after), p) ==> InTheWay(s, p);
  }

  /** A queued retry, or a running one that still visits every pending attempt. */
  predicate Cleaning(s: Calls) {
    || RetryWork in s.queue
    || forall p :: p in s.pendingLeaves ==>
         (s.running.LeaveSent? && s.running.after.RetryNext? && (p == s.running.attempt || p in s.running.after.rest))
         || (s.running.Released? && s.running.after.RetryNext? && p in s.running.after.rest)
  }

  lemma StepKeepsCleaning(s: Calls, e: Event)
    requires Inv(s) && PendingVisited(s) && Enabled(s, e) && e != LeaveFailed && Cleaning(s)
    ensures Cleaning(Step(s, e))
  {
    TurnIsLocal(s, e);
    if e == Begin {
      BeginKeepsCleaning(s);
    } else if e == Resume && s.running.after.RetryNext? {
      RetryNextCleans(s, s.running.after.rest);
    }
  }

  lemma BeginKeepsCleaning(s: Calls)
    requires Inv(s) && PendingVisited(s) && Enabled(s, Begin) && Cleaning(s)
    ensures Cleaning(BeginStep(s))
  {
    assert forall w :: w in s.queue ==> w == s.queue[0] || w in s.queue[1..];
    if s.queue[0] == RetryWork {
      RetryNextCleans(s.(queue := s.queue[1..]), s.pendingLeaves);
    }
  }

  lemma RetryNextCleans(s: Calls, rest: seq<nat>)
    requires Refs(s) && Names(|s.attempts|, rest)
    requires forall p :: p in s.pendingLeaves ==> Claims(s.attempts, p) && (RetryWork in s.queue || p in rest)
    ensures Cleaning(Continue(s, RetryNext(rest)))
  {
    if rest != [] {
      assert forall p :: p in rest ==> p == rest[0] || p in rest[1..];
    }
  }

  lemma {:induction false} StaysCleaning(states: seq<Calls>, events: seq<Event>, m: nat, n: nat)
    requires IsTrace(states, events) && m <= n < |states| && Cleaning(states[m])
    requires forall k :: m <= k < n ==> events[k] != LeaveFailed
    ensures Cleaning(states[n])
  {
    if m < n {
      StaysCleaning(states, events, m, n - 1);
      TraceKeepsInv(states, events, n - 1);
      assert TakesStep(states, events, n - 1);
      StepKeepsCleaning(states[n - 1], events[n - 1]);
    }
  }

  /**
    A retry heals what failed leaves left behind: if no leave fails from the
    retry on, then once the work is done no leave is pending and the server has
    the user present in the active call and nowhere else.
  */
  lemma RetryHeals(states: seq<Calls>, events: seq<Event>, m: nat, n: nat)
    requires IsTrace(states, events) && m < n < |states| && Quiet(states[n])
    requires events[m] == RetryCleanup || states[m].pendingLeaves == []
    requires forall k :: m <= k < n ==> events[k] != LeaveFailed
    ensures
      var t := states[n];
      && Refs(t) && t.pendingLeaves == []
      && t.presence == if t.active.Some? then {t.attempts[t.active.value].target} else {}
  {
    var left := states[n].pendingLeaves;
    assert left == [] || left[0] in left;
    assert TakesStep(states, events, m);
    if events[m] == RetryCleanup {
      assert states[m + 1].queue[|states[m].queue|] == RetryWork;
    } else {
      TurnIsLocal(states[m], events[m]);
    }
    StaysCleaning(states, events, m + 1, n);
    TraceKeepsInv(states, events, n);
    QuietAgrees(states[n]);
  }

  /** Once the work is done a leave is pending only for another call than the active one. */
  lemma PendingIsElsewhere(states: seq<Calls>, events: seq<Event>, n: nat, p: nat)
    requires IsTrace(states, events) && n < |states| && Quiet(states[n]) && p in states[n].pendingLeaves
    ensures
      var t := states[n];
      && Refs(t) && Claims(t.attempts, p)
      && (t.active.Some? ==> t.attempts[p].target != t.attempts[t.active.value].target)
  {
    TraceKeepsInv(states, events, n);
    QuietAgrees(states[n]);
  }
}
