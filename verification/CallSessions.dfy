/**
  The call and presence state machine of the client.

  User actions change the active call at once. Presence joins and leaves run
  later, on a serialised queue of work items, and a user action may come in at
  every point where a work item awaits something. A remote call is split in
  three: it is sent, the server applies it, the client sees the answer. A call
  that fails has no effect on the server.
*/
module CallSessions {
  import opened Wrappers

  /** A voice channel or a DM partner, in the canonical form calls are compared in. */
  datatype CallTarget = Channel(id: nat) | Dm(partner: string)

  /** One attempt to be in a call. Attempts are named by their position in `attempts`. */
  datatype Attempt = Attempt(target: CallTarget, claimedPresence: bool, room: Option<nat>)

  datatype Work =
    | StartWork(attempt: nat, previous: Option<nat>)
    | EndWork(ended: nat)
    | RetryWork

  /** What a work item does once the release it awaits has returned. */
  datatype Then =
    | Connect(attempt: nat)
    | ClearPending(attempt: nat, rest: seq<nat>)
    | Fail(attempt: nat)
    | RetryNext(rest: seq<nat>)
    | Finish

  /** Where the running work item awaits. */
  datatype Running =
    | Idle
    | LeaveSent(attempt: nat, applied: bool, after: Then)
    | Released(after: Then)
    | FetchingUrl(attempt: nat)
    | JoinSent(attempt: nat, applied: bool)
    | Connecting(attempt: nat)

  /** `presence` is the server's side: the targets this client is present in. */
  datatype Calls = Calls(
    attempts: seq<Attempt>,
    active: Option<nat>,
    pendingLeaves: seq<nat>,
    queue: seq<Work>,
    running: Running,
    presence: set<CallTarget>)

  predicate Claims(attempts: seq<Attempt>, a: nat) {
    a < |attempts| && attempts[a].claimedPresence
  }

  predicate ActiveClaims(s: Calls) {
    s.active.Some? && Claims(s.attempts, s.active.value)
  }

  const START := Calls([], None, [], [], Idle, {})

  /** Three user actions, then the turns of the running work item. */
  datatype Event =
    | StartCall(target: CallTarget, connected: bool)
    | EndCall(target: CallTarget, ofRoom: Option<nat>)
    | RetryCleanup
    | Begin
    | Resume
    | UrlSettled(ok: bool)
    | JoinApplied(replaced: set<CallTarget>)
    | JoinAcked
    | JoinRejected
    | LeaveApplied
    | LeaveAcked
    | LeaveFailed
    | RoomAttached(room: nat)
    | ConnectSettled(ok: bool)

  // ------------------------------------------------------ references to attempts

  predicate Names(n: nat, ids: seq<nat>) {
    forall i :: 0 <= i < |ids| ==> ids[i] < n
  }

  predicate ThenNames(n: nat, k: Then) {
    match k
    case Connect(a) => a < n
    case ClearPending(a, rest) => a < n && Names(n, rest)
    case Fail(a) => a < n
    case RetryNext(rest) => Names(n, rest)
    case Finish => true
  }

  predicate WorkNames(n: nat, w: Work) {
    match w
    case StartWork(a, previous) => a < n && (previous.Some? ==> previous.value < n)
    case EndWork(ended) => ended < n
    case RetryWork => true
  }

  predicate RunningNames(n: nat, r: Running) {
    match r
    case Idle => true
    case LeaveSent(a, _, after) => a < n && ThenNames(n, after)
    case Released(after) => ThenNames(n, after)
    case FetchingUrl(a) => a < n
    case JoinSent(a, _) => a < n
    case Connecting(a) => a < n
  }

  /** No reference dangles. */
  predicate Refs(s: Calls) {
    && (s.active.Some? ==> s.active.value < |s.attempts|)
    && Names(|s.attempts|, s.pendingLeaves)
    && (forall i :: 0 <= i < |s.queue| ==> WorkNames(|s.attempts|, s.queue[i]))
    && RunningNames(|s.attempts|, s.running)
  }

  // ---------------------------------------------------------------- steps

  function Without(xs: seq<nat>, x: nat): (r: seq<nat>)
    ensures forall y :: y in r <==> y in xs && y != x
  {
    if xs == [] then []
    else if xs[0] == x then Without(xs[1..], x)
    else [xs[0]] + Without(xs[1..], x)
  }

  function WithClaim(s: Calls, a: nat, claimed: bool): Calls
    requires a < |s.attempts|
  {
    s.(attempts := s.attempts[a := s.attempts[a].(claimedPresence := claimed)])
  }

  /** A newer active call has claimed the target of `a`. */
  predicate Superseded(s: Calls, a: nat)
    requires a < |s.attempts|
  {
    ActiveClaims(s) && s.active.value != a && s.attempts[s.active.value].target == s.attempts[a].target
  }

  /** The synchronous part of releasing attempt `a`, up to its only await. */
  function Release(s: Calls, a: nat, after: Then): Calls
    requires a < |s.attempts|
  {
    if !Claims(s.attempts, a) then s.(running := Released(after))
    else if Superseded(s, a) then
      WithClaim(s, a, false).(pendingLeaves := Without(s.pendingLeaves, a), running := Released(after))
    else s.(running := LeaveSent(a, false, after))
  }

  /** Releases the next pending attempt for the target of `a`; after the last one the connect goes on. */
  function ClearNext(s: Calls, a: nat, rest: seq<nat>): Calls
    requires a < |s.attempts| && Names(|s.attempts|, rest)
    decreases |rest|
  {
    if rest == [] then s.(running := Connecting(a))
    else if s.attempts[rest[0]].target == s.attempts[a].target then
      Release(s, rest[0], ClearPending(a, rest[1..]))
    else ClearNext(s, a, rest[1..])
  }

  /** A work item goes on after an awaited release. */
  function Continue(s: Calls, after: Then): Calls
    requires ThenNames(|s.attempts|, after)
  {
    match after
    case Connect(a) =>
      if s.active == Some(a) then s.(running := FetchingUrl(a)) else Release(s, a, Fail(a))
    case ClearPending(a, rest) => ClearNext(s, a, rest)
    case Fail(a) =>
      if s.active == Some(a) then s.(active := None, running := Idle) else s.(running := Idle)
    case RetryNext(rest) =>
      if rest == [] then s.(running := Idle) else Release(s, rest[0], RetryNext(rest[1..]))
    case Finish => s.(running := Idle)
  }

  function StartCallStep(s: Calls, target: CallTarget, connected: bool): Calls
    requires Refs(s)
  {
    if && s.active.Some?
       && s.attempts[s.active.value].target == target
       && s.attempts[s.active.value].room.Some? && connected
    then s
    else
      var a := |s.attempts|;
      s.(attempts := s.attempts + [Attempt(target, false, None)],
         active := Some(a),
         queue := s.queue + [StartWork(a, s.active)])
  }

  function EndCallStep(s: Calls, target: CallTarget, ofRoom: Option<nat>): Calls
    requires Refs(s)
  {
    if || s.active.None?
       || s.attempts[s.active.value].target != target
       || (ofRoom.Some? && s.attempts[s.active.value].room != ofRoom)
    then s
    else s.(active := None, queue := s.queue + [EndWork(s.active.value)])
  }

  function BeginStep(s: Calls): Calls
    requires Refs(s) && s.running == Idle && s.queue != []
  {
    var t := s.(queue := s.queue[1..]);
    match s.queue[0]
    case StartWork(a, previous) =>
      if previous.Some? then Release(t, previous.value, Connect(a)) else Continue(t, Connect(a))
    case EndWork(ended) => Release(t, ended, Finish)
    case RetryWork => Continue(t, RetryNext(s.pendingLeaves))
  }

  function JoinAckedStep(s: Calls, a: nat): Calls
    requires Refs(s) && a < |s.attempts|
  {
    var t := WithClaim(s, a, true);
    if s.active == Some(a) then ClearNext(t, a, t.pendingLeaves) else Release(t, a, Fail(a))
  }

  function LeaveFailedStep(s: Calls, a: nat, after: Then): Calls {
    s.(pendingLeaves := if a in s.pendingLeaves then s.pendingLeaves else s.pendingLeaves + [a],
       running := Released(after))
  }

  function RoomAttachedStep(s: Calls, a: nat, room: nat): Calls
    requires a < |s.attempts|
  {
    var t := s.(attempts := s.attempts[a := s.attempts[a].(room := Some(room))]);
    if s.active == Some(a) then t else Release(t, a, Fail(a))
  }

  /** Whether `e` can happen in `s`. The user may act at any time. */
  predicate Enabled(s: Calls, e: Event) {
    match e
    case StartCall(_, _) => true
    case EndCall(_, _) => true
    case RetryCleanup => true
    case Begin => s.running == Idle && s.queue != []
    case Resume => s.running.Released?
    case UrlSettled(_) => s.running.FetchingUrl?
    case JoinApplied(_) => s.running.JoinSent? && !s.running.applied
    case JoinAcked => s.running.JoinSent? && s.running.applied
    case JoinRejected => s.running.JoinSent? && !s.running.applied
    case LeaveApplied => s.running.LeaveSent? && !s.running.applied
    case LeaveAcked => s.running.LeaveSent? && s.running.applied
    case LeaveFailed => s.running.LeaveSent? && !s.running.applied
    case RoomAttached(_) =>
      s.running.Connecting? && s.running.attempt < |s.attempts| && s.attempts[s.running.attempt].room.None?
    case ConnectSettled(ok) =>
      s.running.Connecting? && s.running.attempt < |s.attempts| &&
      (ok ==> s.attempts[s.running.attempt].room.Some?)
  }

  function Step(s: Calls, e: Event): Calls
    requires Refs(s) && Enabled(s, e)
  {
    match e
    case StartCall(target, connected) => StartCallStep(s, target, connected)
    case EndCall(target, ofRoom) => EndCallStep(s, target, ofRoom)
    case RetryCleanup => s.(queue := s.queue + [RetryWork])
    case Begin => BeginStep(s)
    case Resume => Continue(s, s.running.after)
    case UrlSettled(ok) =>
      var a := s.running.attempt;
      if ok && s.active == Some(a) then s.(running := JoinSent(a, false)) else Release(s, a, Fail(a))
    case JoinApplied(replaced) =>
      s.(presence := s.presence - replaced + {s.attempts[s.running.attempt].target},
         running := s.running.(applied := true))
    case JoinAcked => JoinAckedStep(s, s.running.attempt)
    case JoinRejected => Release(s, s.running.attempt, Fail(s.running.attempt))
    case LeaveApplied =>
      s.(presence := s.presence - {s.attempts[s.running.attempt].target},
         running := s.running.(applied := true))
    case LeaveAcked =>
      var a := s.running.attempt;
      WithClaim(s, a, false).(
        pendingLeaves := Without(s.pendingLeaves, a), running := Released(s.running.after))
    case LeaveFailed => LeaveFailedStep(s, s.running.attempt, s.running.after)
    case RoomAttached(room) => RoomAttachedStep(s, s.running.attempt, room)
    case ConnectSettled(ok) =>
      var a := s.running.attempt;
      if ok && s.active == Some(a) then s.(running := Idle) else Release(s, a, Fail(a))
  }

  // ------------------------------------------------------------- the invariant

  /** The attempt whose start is running and has not been answered by the server yet. */
  function Unclaimed(r: Running): Option<nat> {
    match r
    case LeaveSent(_, _, Connect(a)) => Some(a)
    case Released(Connect(a)) => Some(a)
    case FetchingUrl(a) => Some(a)
    case JoinSent(a, _) => Some(a)
    case _ => None
  }

  /** The attempt whose start is running and has claimed presence. */
  function Joined(r: Running): Option<nat> {
    match r
    case LeaveSent(_, _, ClearPending(a, _)) => Some(a)
    case Released(ClearPending(a, _)) => Some(a)
    case Connecting(a) => Some(a)
    case _ => None
  }

  /** The attempt whose start is being given up. */
  function Failing(r: Running): Option<nat> {
    match r
    case LeaveSent(_, _, Fail(a)) => Some(a)
    case Released(Fail(a)) => Some(a)
    case _ => None
  }

  /** The attempt whose start is running, at any stage. */
  function Starter(r: Running): Option<nat> {
    if Unclaimed(r).Some? then Unclaimed(r) else if Joined(r).Some? then Joined(r) else Failing(r)
  }

  /** The pending attempts a running loop has not visited yet. */
  function Unvisited(r: Running): seq<nat> {
    match r
    case LeaveSent(_, _, ClearPending(_, rest)) => rest
    case LeaveSent(_, _, RetryNext(rest)) => rest
    case Released(ClearPending(_, rest)) => rest
    case Released(RetryNext(rest)) => rest
    case _ => []
  }

  predicate QueuedStart(queue: seq<Work>, a: nat) {
    exists i :: 0 <= i < |queue| && queue[i].StartWork? && queue[i].attempt == a
  }

  predicate ReleasedBy(w: Work, a: nat) {
    (w.StartWork? && w.previous == Some(a)) || (w.EndWork? && w.ended == a)
  }

  predicate QueuedRelease(queue: seq<Work>, a: nat) {
    exists i :: 0 <= i < |queue| && ReleasedBy(queue[i], a)
  }

  /** The running work item awaits the release of `a`, or will release `a` if its start fails. */
  predicate RunningHolds(r: Running, a: nat) {
    (r.LeaveSent? && r.attempt == a) || Unclaimed(r) == Some(a) || Joined(r) == Some(a)
  }

  /** Someone answers for the presence attempt `a` has claimed. */
  predicate Held(s: Calls, a: nat) {
    s.active == Some(a) || QueuedRelease(s.queue, a) || RunningHolds(s.running, a) || a in s.pendingLeaves
  }

  /** Starts run in the order of their attempts, and an attempt claims presence only in its own start. */
  ghost predicate InOrder(s: Calls) {
    && (forall i, j :: 0 <= i < j < |s.queue| && s.queue[i].StartWork? && s.queue[j].StartWork? ==>
          s.queue[i].attempt < s.queue[j].attempt)
    && (forall i :: 0 <= i < |s.queue| && s.queue[i].StartWork? && Starter(s.running).Some? ==>
          Starter(s.running).value < s.queue[i].attempt)
    && (forall i, a: nat ::
          0 <= i < |s.queue| && s.queue[i].StartWork? && Claims(s.attempts, a) ==> a < s.queue[i].attempt)
    && (forall a: nat :: Claims(s.attempts, a) && Unclaimed(s.running).Some? ==> a < Unclaimed(s.running).value)
  }

  /** The active attempt is the newest one, and only its own failed start releases it. */
  predicate ActiveIsNewest(s: Calls) {
    s.active.Some? ==>
      && s.active.value == |s.attempts| - 1
      && !QueuedRelease(s.queue, s.active.value)
      && (s.running.LeaveSent? && s.running.attempt == s.active.value ==> s.running.after == Fail(s.active.value))
      && s.active.value !in Unvisited(s.running)
      && (s.active.value in s.pendingLeaves ==> s.running == Released(Fail(s.active.value)))
  }

  /** An active call that has not claimed presence still has its start to run. */
  predicate StartPending(s: Calls) {
    s.active.Some? ==>
      && (!Claims(s.attempts, s.active.value) ==>
            QueuedStart(s.queue, s.active.value) || Starter(s.running) == s.active)
      && (Joined(s.running) == s.active ==> Claims(s.attempts, s.active.value))
  }

  ghost predicate HasOwner(s: Calls, t: CallTarget) {
    exists a ::
      && 0 <= a < |s.attempts| && s.attempts[a].target == t
      && (s.attempts[a].claimedPresence || s.running == JoinSent(a, true))
  }

  /** The client and the server agree on who is present. */
  ghost predicate Agreement(s: Calls)
    requires Refs(s)
  {
    && (forall t :: t in s.presence ==> HasOwner(s, t))
    && (ActiveClaims(s) ==>
          || s.attempts[s.active.value].target in s.presence
          || s.running == LeaveSent(s.active.value, true, Fail(s.active.value)))
    && (s.running.JoinSent? && s.running.applied ==> s.attempts[s.running.attempt].target in s.presence)
    && (s.running.LeaveSent? ==>
          && Claims(s.attempts, s.running.attempt)
          && !Superseded(s, s.running.attempt)
          && (s.running.applied ==> s.attempts[s.running.attempt].target !in s.presence))
  }

  /** Every claim has someone who answers for it. */
  ghost predicate ClaimsHeld(s: Calls) {
    && (forall a: nat :: Claims(s.attempts, a) ==> Held(s, a))
    && (s.running.Released? && s.running.after.Fail? && Claims(s.attempts, s.running.after.attempt) ==>
          s.running.after.attempt in s.pendingLeaves)
    && (s.running.LeaveSent? && s.running.after.Fail? ==> s.running.attempt == s.running.after.attempt)
  }

  ghost predicate Inv(s: Calls) {
    Refs(s) && InOrder(s) && ActiveIsNewest(s) && StartPending(s) && Agreement(s) && ClaimsHeld(s)
  }

  /** Only the last attempt of `t` is new; it has claimed nothing. */
  lemma StartCallKeepsInv(s: Calls, target: CallTarget, connected: bool)
    requires Inv(s)
    ensures Inv(StartCallStep(s, target, connected))
  {
    var t := StartCallStep(s, target, connected);
    if t != s {
      var n := |s.attempts|;
      assert forall i :: 0 <= i < |s.queue| ==> t.queue[i] == s.queue[i];
      assert forall i :: 0 <= i < n ==> t.attempts[i] == s.attempts[i];
      assert forall a: nat :: Claims(s.attempts, a) <==> Claims(t.attempts, a);
      assert t.queue[|s.queue|] == StartWork(n, s.active);
      assert QueuedStart(t.queue, n);
      assert Joined(s.running) != Some(n);
      forall a: nat | Claims(t.attempts, a) ensures Held(t, a) {
        assert Held(s, a);
        if QueuedRelease(s.queue, a) {
          var i :| 0 <= i < |s.queue| && ReleasedBy(s.queue[i], a);
          assert ReleasedBy(t.queue[i], a);
        } else if s.active == Some(a) {
          assert ReleasedBy(t.queue[|s.queue|], a);
        }
      }
    }
  }

  lemma EndCallKeepsInv(s: Calls, target: CallTarget, ofRoom: Option<nat>)
    requires Inv(s)
    ensures Inv(EndCallStep(s, target, ofRoom))
  {
    var t := EndCallStep(s, target, ofRoom);
    if t != s {
      assert forall i :: 0 <= i < |s.queue| ==> t.queue[i] == s.queue[i];
      assert forall a: nat :: Claims(s.attempts, a) <==> Claims(t.attempts, a);
      assert t.queue[|s.queue|] == EndWork(s.active.value);
      forall a: nat | Claims(t.attempts, a) ensures Held(t, a) {
        assert Held(s, a);
        if QueuedRelease(s.queue, a) {
          var i :| 0 <= i < |s.queue| && ReleasedBy(s.queue[i], a);
          assert ReleasedBy(t.queue[i], a);
        } else if s.active == Some(a) {
          assert ReleasedBy(t.queue[|s.queue|], a);
        }
      }
    }
  }

  /**
    What holds when a work item is about to release `a`: the invariant, except
    that nobody else has to answer for `a` any more.
  */
  ghost predicate MayRelease(s: Calls, a: nat, after: Then) {
    var t := s.(running := Released(after));
    && a < |s.attempts|
    && Refs(t) && InOrder(t) && ActiveIsNewest(t) && StartPending(t) && Agreement(t)
    && (forall b: nat :: Claims(s.attempts, b) && b != a ==> Held(t, b))
    && (s.active == Some(a) ==> after == Fail(a) && a !in s.pendingLeaves)
    && (after.Fail? ==> after.attempt == a)
  }

  lemma ReleaseKeepsClaims(s: Calls, a: nat, after: Then)
    requires MayRelease(s, a, after)
    ensures ClaimsHeld(Release(s, a, after))
  {
    var u := s.(running := Released(after));
    var t := Release(s, a, after);
    assert forall b: nat :: Claims(t.attempts, b) ==> Claims(s.attempts, b);
    forall b: nat | Claims(t.attempts, b) ensures Held(t, b) {
      if b != a {
        assert Held(u, b);
      }
    }
  }

  lemma ReleaseKeepsOwner(s: Calls, a: nat, after: Then, x: CallTarget)
    requires MayRelease(s, a, after) && x in s.presence
    ensures HasOwner(Release(s, a, after), x)
  {
    var u := s.(running := Released(after));
    var t := Release(s, a, after);
    assert HasOwner(u, x);
    var b :| 0 <= b < |u.attempts| && u.attempts[b].target == x && u.attempts[b].claimedPresence;
    if b == a && Claims(s.attempts, a) && Superseded(s, a) {
      assert t.attempts[s.active.value].target == x && t.attempts[s.active.value].claimedPresence;
    } else {
      assert t.attempts[b].target == x && t.attempts[b].claimedPresence;
    }
  }

  lemma ReleaseKeepsAgreement(s: Calls, a: nat, after: Then)
    requires MayRelease(s, a, after)
    ensures Refs(Release(s, a, after)) && Agreement(Release(s, a, after))
  {
    var t := Release(s, a, after);
    assert forall i :: 0 <= i < |t.pendingLeaves| ==> t.pendingLeaves[i] in t.pendingLeaves;
    assert forall b: nat :: Claims(s.attempts, b) && b != a ==> Claims(t.attempts, b);
    forall x | x in t.presence ensures HasOwner(t, x) {
      ReleaseKeepsOwner(s, a, after, x);
    }
  }

  lemma ReleaseKeepsInv(s: Calls, a: nat, after: Then)
    requires MayRelease(s, a, after)
    ensures Inv(Release(s, a, after))
  {
    var t := Release(s, a, after);
    assert forall i :: 0 <= i < |t.pendingLeaves| ==> t.pendingLeaves[i] in t.pendingLeaves;
    assert forall b: nat :: Claims(t.attempts, b) ==> Claims(s.attempts, b);
    assert forall b: nat :: Claims(s.attempts, b) && b != a ==> Claims(t.attempts, b);
    ReleaseKeepsClaims(s, a, after);
    ReleaseKeepsAgreement(s, a, after);
  }

  lemma ClearNextKeepsInv(s: Calls, a: nat, rest: seq<nat>)
    requires a < |s.attempts| && Names(|s.attempts|, rest)
    requires Inv(s.(running := Released(ClearPending(a, rest))))
    ensures Inv(ClearNext(s, a, rest))
    decreases |rest|
  {
    var u := s.(running := Released(ClearPending(a, rest)));
    if rest == [] {
      KeepsHolders(u, ClearNext(s, a, rest));
    } else {
      var v := s.(running := Released(ClearPending(a, rest[1..])));
      assert rest[0] in rest && forall x :: x in rest[1..] ==> x in rest;
      KeepsHolders(u, v);
      if s.attempts[rest[0]].target == s.attempts[a].target {
        ReleaseKeepsInv(s, rest[0], ClearPending(a, rest[1..]));
      } else {
        ClearNextKeepsInv(s, a, rest[1..]);
      }
    }
  }

  /** The start of `a`, waiting at any point but a join the server has applied, gives up. */
  lemma FailKeepsInv(s: Calls, a: nat)
    requires Inv(s) && Starter(s.running) == Some(a) && !s.running.LeaveSent?
    requires Failing(s.running).None? && !(s.running.JoinSent? && s.running.applied)
    ensures a < |s.attempts| && Inv(Release(s, a, Fail(a)))
  {
    var u := s.(running := Released(Fail(a)));
    assert forall b: nat :: Claims(s.attempts, b) && b != a ==> Held(s, b) && Held(u, b);
    assert forall x :: x in s.presence ==> HasOwner(s, x) && HasOwner(u, x);
    ReleaseKeepsInv(s, a, Fail(a));
  }

  lemma RetryNextKeepsInv(s: Calls, rest: seq<nat>)
    requires Names(|s.attempts|, rest)
    requires Inv(s.(running := Released(RetryNext(rest))))
    ensures Inv(Continue(s, RetryNext(rest)))
  {
    var u := s.(running := Released(RetryNext(rest)));
    var v := if rest == [] then s.(running := Idle) else s.(running := Released(RetryNext(rest[1..])));
    KeepsHolders(u, v);
    if rest != [] {
      assert rest[0] in rest && forall x :: x in rest[1..] ==> x in rest;
      ReleaseKeepsInv(s, rest[0], RetryNext(rest[1..]));
    }
  }

  lemma ConnectKeepsInv(s: Calls, a: nat)
    requires a < |s.attempts| && Inv(s.(running := Released(Connect(a))))
    ensures Inv(Continue(s, Connect(a)))
  {
    var u := s.(running := Released(Connect(a)));
    if s.active == Some(a) {
      KeepsHolders(u, s.(running := FetchingUrl(a)));
    } else {
      FailKeepsInv(u, a);
    }
  }

  lemma ContinueKeepsInv(s: Calls, after: Then)
    requires ThenNames(|s.attempts|, after)
    requires Inv(s.(running := Released(after)))
    ensures Inv(Continue(s, after))
  {
    var u := s.(running := Released(after));
    match after
    case Connect(a) => ConnectKeepsInv(s, a);
    case ClearPending(a, rest) => ClearNextKeepsInv(s, a, rest);
    case Fail(a) => KeepsHolders(u, s.(running := Idle));
    case RetryNext(rest) => RetryNextKeepsInv(s, rest);
    case Finish => KeepsHolders(u, s.(running := Idle));
  }

  /** Moving on within a work item loses no holder and no owner. */
  lemma KeepsHolders(s: Calls, t: Calls)
    requires t == s.(running := t.running) || t == s.(running := t.running, active := None)
    requires forall a: nat :: RunningHolds(s.running, a) ==> RunningHolds(t.running, a)
    requires !(s.running.JoinSent? && s.running.applied)
    ensures s.active == t.active ==> forall b: nat :: Held(s, b) ==> Held(t, b)
    ensures forall x :: HasOwner(s, x) ==> HasOwner(t, x)
  {
    forall x | HasOwner(s, x) ensures HasOwner(t, x) {
      var b :| 0 <= b < |s.attempts| && s.attempts[b].target == x && s.attempts[b].claimedPresence;
      assert t.attempts[b].target == x && t.attempts[b].claimedPresence;
    }
  }

  /** What popping the first work item keeps. */
  lemma PopKeepsHolders(s: Calls, t: Calls)
    requires s.queue != [] && s.running == Idle
    requires t == s.(queue := s.queue[1..], running := t.running)
    ensures forall a: nat :: QueuedStart(s.queue, a) ==>
      QueuedStart(t.queue, a) || (s.queue[0].StartWork? && s.queue[0].attempt == a)
    ensures forall a: nat :: QueuedRelease(t.queue, a) ==> QueuedRelease(s.queue, a)
    ensures forall a: nat :: Held(s, a) && !ReleasedBy(s.queue[0], a) ==> Held(t, a)
    ensures forall x :: HasOwner(s, x) ==> HasOwner(t, x)
  {
    forall a: nat | QueuedStart(s.queue, a)
      ensures QueuedStart(t.queue, a) || (s.queue[0].StartWork? && s.queue[0].attempt == a)
    {
      var i :| 0 <= i < |s.queue| && s.queue[i].StartWork? && s.queue[i].attempt == a;
      assert i > 0 ==> t.queue[i - 1].StartWork?;
    }
    forall a: nat | QueuedRelease(t.queue, a) ensures QueuedRelease(s.queue, a) {
      var i :| 0 <= i < |t.queue| && ReleasedBy(t.queue[i], a);
      assert ReleasedBy(s.queue[i + 1], a);
    }
    forall a: nat | Held(s, a) && !ReleasedBy(s.queue[0], a) ensures Held(t, a) {
      if QueuedRelease(s.queue, a) {
        var i :| 0 <= i < |s.queue| && ReleasedBy(s.queue[i], a);
        assert ReleasedBy(t.queue[i - 1], a);
      }
    }
    forall x | HasOwner(s, x) ensures HasOwner(t, x) {
      var b :| 0 <= b < |s.attempts| && s.attempts[b].target == x && s.attempts[b].claimedPresence;
      assert t.attempts[b].target == x && t.attempts[b].claimedPresence;
    }
  }

  lemma BeginStartKeepsInv(s: Calls, a: nat, previous: Option<nat>)
    requires Inv(s) && s.running == Idle && s.queue != [] && s.queue[0] == StartWork(a, previous)
    ensures Inv(BeginStep(s))
  {
    var t := s.(queue := s.queue[1..]);
    var u := t.(running := Released(Connect(a)));
    assert forall i :: 0 <= i < |t.queue| ==> t.queue[i] == s.queue[i + 1];
    PopKeepsHolders(s, u);
    if previous.Some? {
      assert ReleasedBy(s.queue[0], previous.value);
      ReleaseKeepsInv(t, previous.value, Connect(a));
    } else {
      ContinueKeepsInv(t, Connect(a));
    }
  }

  lemma BeginEndKeepsInv(s: Calls, ended: nat)
    requires Inv(s) && s.running == Idle && s.queue != [] && s.queue[0] == EndWork(ended)
    ensures Inv(BeginStep(s))
  {
    var t := s.(queue := s.queue[1..]);
    assert forall i :: 0 <= i < |t.queue| ==> t.queue[i] == s.queue[i + 1];
    PopKeepsHolders(s, t.(running := Released(Finish)));
    assert ReleasedBy(s.queue[0], ended);
    ReleaseKeepsInv(t, ended, Finish);
  }

  lemma BeginRetryKeepsInv(s: Calls)
    requires Inv(s) && s.running == Idle && s.queue != [] && s.queue[0] == RetryWork
    ensures Inv(BeginStep(s))
  {
    var t := s.(queue := s.queue[1..]);
    assert forall i :: 0 <= i < |t.queue| ==> t.queue[i] == s.queue[i + 1];
    PopKeepsHolders(s, t.(running := Released(RetryNext(s.pendingLeaves))));
    ContinueKeepsInv(t, RetryNext(s.pendingLeaves));
  }

  lemma RetryCleanupKeepsInv(s: Calls)
    requires Inv(s)
    ensures Inv(s.(queue := s.queue + [RetryWork]))
  {
    var t := s.(queue := s.queue + [RetryWork]);
    assert forall i :: 0 <= i < |s.queue| ==> t.queue[i] == s.queue[i];
    forall a: nat ensures QueuedStart(s.queue, a) <==> QueuedStart(t.queue, a) {
      if QueuedStart(s.queue, a) {
        var i :| 0 <= i < |s.queue| && s.queue[i].StartWork? && s.queue[i].attempt == a;
        assert t.queue[i].StartWork?;
      }
    }
    forall a: nat ensures QueuedRelease(s.queue, a) <==> QueuedRelease(t.queue, a) {
      if QueuedRelease(s.queue, a) {
        var i :| 0 <= i < |s.queue| && ReleasedBy(s.queue[i], a);
        assert ReleasedBy(t.queue[i], a);
      }
    }
    assert forall a: nat :: Held(s, a) ==> Held(t, a);
    assert forall x :: HasOwner(s, x) ==> HasOwner(t, x);
  }

  lemma JoinAppliedKeepsInv(s: Calls, replaced: set<CallTarget>)
    requires Inv(s) && Enabled(s, JoinApplied(replaced))
    ensures Inv(Step(s, JoinApplied(replaced)))
  {
    var t := Step(s, JoinApplied(replaced));
    assert forall a: nat :: Held(s, a) ==> Held(t, a);
    forall x | x in t.presence ensures HasOwner(t, x) {
      if x in s.presence {
        assert HasOwner(s, x);
        var b :| 0 <= b < |s.attempts| && s.attempts[b].target == x && s.attempts[b].claimedPresence;
        assert t.attempts[b].target == x;
      } else {
        assert t.attempts[s.running.attempt].target == x;
      }
    }
  }

  lemma JoinAckedKeepsInv(s: Calls)
    requires Inv(s) && Enabled(s, JoinAcked)
    ensures Inv(Step(s, JoinAcked))
  {
    var a := s.running.attempt;
    var t := WithClaim(s, a, true);
    var after := if s.active == Some(a) then ClearPending(a, t.pendingLeaves) else Fail(a);
    var u := t.(running := Released(after));
    assert forall b: nat :: Claims(t.attempts, b) ==> b == a || (Claims(s.attempts, b) && Held(s, b));
    assert forall b: nat :: Held(s, b) && b != a ==> Held(u, b);
    forall x | x in s.presence ensures HasOwner(u, x) {
      assert HasOwner(s, x);
      var b :| 0 <= b < |s.attempts| && s.attempts[b].target == x && (s.attempts[b].claimedPresence || b == a);
      assert u.attempts[b].target == x && u.attempts[b].claimedPresence;
    }
    if s.active == Some(a) {
      ClearNextKeepsInv(t, a, t.pendingLeaves);
    } else {
      ReleaseKeepsInv(t, a, after);
    }
  }

  lemma LeaveAppliedKeepsInv(s: Calls)
    requires Inv(s) && Enabled(s, LeaveApplied)
    ensures Inv(Step(s, LeaveApplied))
  {
    var t := Step(s, LeaveApplied);
    assert forall a: nat :: Held(s, a) ==> Held(t, a);
    assert forall x :: HasOwner(s, x) ==> HasOwner(t, x);
  }

  lemma LeaveAckedKeepsInv(s: Calls)
    requires Inv(s) && Enabled(s, LeaveAcked)
    ensures Inv(Step(s, LeaveAcked))
  {
    var t := Step(s, LeaveAcked);
    var a := s.running.attempt;
    assert forall i :: 0 <= i < |t.pendingLeaves| ==> t.pendingLeaves[i] in t.pendingLeaves;
    assert forall b: nat :: Claims(t.attempts, b) <==> Claims(s.attempts, b) && b != a;
    assert forall b: nat :: Held(s, b) && b != a ==> Held(t, b);
    forall x | x in t.presence ensures HasOwner(t, x) {
      assert HasOwner(s, x);
      var b :| 0 <= b < |s.attempts| && s.attempts[b].target == x && s.attempts[b].claimedPresence;
      assert t.attempts[b].target == x && t.attempts[b].claimedPresence;
    }
  }

  lemma LeaveFailedKeepsInv(s: Calls)
    requires Inv(s) && Enabled(s, LeaveFailed)
    ensures Inv(Step(s, LeaveFailed))
  {
    var t := Step(s, LeaveFailed);
    assert forall b: nat :: Held(s, b) ==> Held(t, b);
    assert forall x :: HasOwner(s, x) ==> HasOwner(t, x);
  }

  lemma ConnectingKeepsInv(s: Calls, e: Event)
    requires Inv(s) && Enabled(s, e) && (e.RoomAttached? || e.ConnectSettled?)
    ensures Inv(Step(s, e))
  {
    var a := s.running.attempt;
    var t := if e.RoomAttached? then s.(attempts := s.attempts[a := s.attempts[a].(room := Some(e.room))]) else s;
    assert forall b: nat :: Claims(t.attempts, b) <==> Claims(s.attempts, b);
    assert forall b: nat :: Held(s, b) ==> Held(t, b);
    forall x | HasOwner(s, x) ensures HasOwner(t, x) {
      var b :| 0 <= b < |s.attempts| && s.attempts[b].target == x && s.attempts[b].claimedPresence;
      assert t.attempts[b].target == x && t.attempts[b].claimedPresence;
    }
    assert Inv(t);
    if s.active != Some(a) || (e.ConnectSettled? && !e.ok) {
      FailKeepsInv(t, a);
    } else if e.ConnectSettled? {
      assert forall b: nat :: Held(s, b) ==> Held(s.(running := Idle), b);
      assert forall x :: HasOwner(s, x) ==> HasOwner(s.(running := Idle), x);
    }
  }

  lemma UrlSettledKeepsInv(s: Calls, ok: bool)
    requires Inv(s) && Enabled(s, UrlSettled(ok))
    ensures Inv(Step(s, UrlSettled(ok)))
  {
    var a := s.running.attempt;
    if ok && s.active == Some(a) {
      KeepsHolders(s, s.(running := JoinSent(a, false)));
    } else {
      FailKeepsInv(s, a);
    }
  }

  /** Every step keeps the invariant. */
  lemma StepKeepsInv(s: Calls, e: Event)
    requires Inv(s) && Enabled(s, e)
    ensures Inv(Step(s, e))
  {
    match e
    case StartCall(target, connected) => StartCallKeepsInv(s, target, connected);
    case EndCall(target, ofRoom) => EndCallKeepsInv(s, target, ofRoom);
    case RetryCleanup => RetryCleanupKeepsInv(s);
    case Begin =>
      match s.queue[0] {
        case StartWork(a, previous) => BeginStartKeepsInv(s, a, previous);
        case EndWork(ended) => BeginEndKeepsInv(s, ended);
        case RetryWork => BeginRetryKeepsInv(s);
      }
    case Resume =>
      assert s == s.(running := Released(s.running.after));
      ContinueKeepsInv(s, s.running.after);
    case UrlSettled(ok) => UrlSettledKeepsInv(s, ok);
    case JoinApplied(replaced) => JoinAppliedKeepsInv(s, replaced);
    case JoinAcked => JoinAckedKeepsInv(s);
    case JoinRejected => FailKeepsInv(s, s.running.attempt);
    case LeaveApplied => LeaveAppliedKeepsInv(s);
    case LeaveAcked => LeaveAckedKeepsInv(s);
    case LeaveFailed => LeaveFailedKeepsInv(s);
    case RoomAttached(room) => ConnectingKeepsInv(s, e);
    case ConnectSettled(ok) => ConnectingKeepsInv(s, e);
  }

  // ---------------------------------------------------------------- whole runs

  /** `states` is a run from the start: each state follows from the one before by some event. */
  ghost predicate IsRun(states: seq<Calls>) {
    && states != [] && states[0] == START
    && (forall i :: 0 <= i < |states| ==> Refs(states[i]))
    && (forall i :: 0 <= i < |states| - 1 ==> Follows(states[i], states[i + 1]))
  }

  ghost predicate Follows(s: Calls, t: Calls)
    requires Refs(s)
  {
    exists e :: Enabled(s, e) && t == Step(s, e)
  }

  lemma FollowsKeepsInv(s: Calls, t: Calls)
    requires Inv(s) && Follows(s, t)
    ensures Inv(t)
  {
    var e :| Enabled(s, e) && t == Step(s, e);
    StepKeepsInv(s, e);
  }

  lemma {:induction false} RunKeepsInv(states: seq<Calls>, n: nat)
    requires IsRun(states) && n < |states|
    ensures Inv(states[n])
  {
    if n > 0 {
      RunKeepsInv(states, n - 1);
      assert Follows(states[n - 1], states[n - 1 + 1]);
      FollowsKeepsInv(states[n - 1], states[n]);
    }
  }

  /**
    Presence ownership: in every state of every run each target the server has
    us present in belongs to an attempt that has claimed it, or is about to be
    told so, and that attempt is the active call, is held by a running or queued
    work item, or is among the pending leaves.
  */
  lemma PresenceIsOwned(states: seq<Calls>, n: nat, target: CallTarget)
    requires IsRun(states) && n < |states| && target in states[n].presence
    ensures exists a: nat ::
      && a < |states[n].attempts| && states[n].attempts[a].target == target && Held(states[n], a)
      && (states[n].attempts[a].claimedPresence || states[n].running == JoinSent(a, true))
  {
    RunKeepsInv(states, n);
    var s := states[n];
    assert HasOwner(s, target);
    var a :| 0 <= a < |s.attempts| && s.attempts[a].target == target
             && (s.attempts[a].claimedPresence || s.running == JoinSent(a, true));
    assert Claims(s.attempts, a) ==> Held(s, a);
    assert Held(s, a);
  }

  /**
    A late leave never deletes a newer join: a claimed active call is present on
    the server, in every state of every run, unless its own failed start has
    just made the server drop it.
  */
  lemma ActiveCallIsPresent(states: seq<Calls>, n: nat)
    requires IsRun(states) && n < |states| && ActiveClaims(states[n])
    ensures
      var c := states[n].active.value;
      states[n].attempts[c].target in states[n].presence || states[n].running == LeaveSent(c, true, Fail(c))
  {
    RunKeepsInv(states, n);
  }

  /** Present on the server: the active call, and nothing else but what a failed leave left behind. */
  ghost predicate Exact(s: Calls)
    requires Refs(s)
  {
    && (s.active.Some? ==> ActiveClaims(s) && s.attempts[s.active.value].target in s.presence)
    && (forall x :: x in s.presence ==>
          || (s.active.Some? && s.attempts[s.active.value].target == x)
          || (exists a :: a in s.pendingLeaves && s.attempts[a].target == x))
  }

  lemma QuietAgrees(s: Calls)
    requires Inv(s) && s.running == Idle && s.queue == []
    ensures Exact(s)
    ensures s.pendingLeaves == [] ==>
      s.presence == if s.active.Some? then {s.attempts[s.active.value].target} else {}
  {
    forall x | x in s.presence
      ensures (s.active.Some? && s.attempts[s.active.value].target == x) ||
              exists a :: a in s.pendingLeaves && s.attempts[a].target == x
    {
      assert HasOwner(s, x);
      var a :| 0 <= a < |s.attempts| && s.attempts[a].target == x && s.attempts[a].claimedPresence;
      assert Claims(s.attempts, a);
      assert Held(s, a);
    }
  }

  /** When all work is done the server agrees with the active call, but for the leaves still pending. */
  lemma QuietMeansExact(states: seq<Calls>, n: nat)
    requires IsRun(states) && n < |states|
    requires states[n].running == Idle && states[n].queue == []
    ensures Exact(states[n])
    ensures states[n].pendingLeaves == [] ==>
      states[n].presence ==
        if states[n].active.Some? then {states[n].attempts[states[n].active.value].target} else {}
  {
    RunKeepsInv(states, n);
    QuietAgrees(states[n]);
  }

  // -------------------------------------------------------------- the queue drains

  /** How far the running work item still has to go, in the order its stages come. */
  function Stage(r: Running): nat {
    match r
    case Idle => 0
    case LeaveSent(_, _, after) => ThenStage(after)
    case Released(after) => ThenStage(after)
    case FetchingUrl(_) => 5
    case JoinSent(_, _) => 4
    case Connecting(_) => 2
  }

  function ThenStage(k: Then): nat {
    match k
    case Connect(_) => 6
    case ClearPending(_, _) => 3
    case Fail(_) => 1
    case RetryNext(_) => 1
    case Finish => 1
  }

  /** The steps left at one stage: answers to one call, or the one room still to attach. */
  function Answers(s: Calls): nat {
    match s.running
    case LeaveSent(_, applied, _) => if applied then 1 else 2
    case JoinSent(_, applied) => if applied then 0 else 1
    case Connecting(a) => if a < |s.attempts| && s.attempts[a].room.None? then 1 else 0
    case _ => 0
  }

  predicate UserAction(e: Event) {
    e.StartCall? || e.EndCall? || e.RetryCleanup?
  }

  predicate Nearer(t: Calls, s: Calls) {
    || |t.queue| < |s.queue|
    || (|t.queue| == |s.queue| && Stage(t.running) < Stage(s.running))
    || (|t.queue| == |s.queue| && Stage(t.running) == Stage(s.running)
        && |Unvisited(t.running)| < |Unvisited(s.running)|)
    || (|t.queue| == |s.queue| && Stage(t.running) == Stage(s.running)
        && |Unvisited(t.running)| == |Unvisited(s.running)| && Answers(t) < Answers(s))
  }

  lemma ClearNextAdvances(s: Calls, a: nat, rest: seq<nat>)
    requires a < |s.attempts| && Names(|s.attempts|, rest)
    ensures
      var t := ClearNext(s, a, rest);
      && t.queue == s.queue
      && (t.running == Connecting(a) || (Stage(t.running) == 3 && |Unvisited(t.running)| < |rest|))
    decreases |rest|
  {
  }

  /** Every turn of a work item brings the queue nearer to empty, whatever the remote calls answer. */
  lemma TurnsAdvance(s: Calls, e: Event)
    requires Refs(s) && Enabled(s, e) && !UserAction(e)
    ensures Nearer(Step(s, e), s)
  {
    if e == Resume && s.running.after.ClearPending? {
      ClearNextAdvances(s, s.running.after.attempt, s.running.after.rest);
    } else if e == JoinAcked {
      var t := WithClaim(s, s.running.attempt, true);
      ClearNextAdvances(t, s.running.attempt, t.pendingLeaves);
    }
  }
}
