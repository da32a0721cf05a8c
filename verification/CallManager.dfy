/**
  The client's call manager: module variables that user actions and the work
  queue update step by step. Each method is one synchronous stretch of code
  between two awaits, proved against the step of `CallSessions` it takes.
*/
module CallManager {
  import opened Wrappers
  import opened CallSessions
  import opened CallOutcomes

  class CallManager {
    var attempts: seq<Attempt>
    var activeCall: Option<nat>
    var pendingLeaves: seq<nat>
    var callWork: seq<Work>
    var running: Running
    var presence: set<CallTarget>

    ghost function View(): Calls
      reads this
    {
      Calls(attempts, activeCall, pendingLeaves, callWork, running, presence)
    }

    constructor ()
      ensures View() == START
    {
      attempts, activeCall, pendingLeaves := [], None, [];
      callWork, running, presence := [], Idle, {};
    }

    method ClearLocalCalls() returns (previous: Option<nat>)
      modifies this`activeCall
      ensures previous == old(activeCall) && activeCall == None
    {
      previous := activeCall;
      activeCall := None;
    }

    method QueueCallWork(work: Work)
      modifies this`callWork
      ensures callWork == old(callWork) + [work]
    {
      callWork := callWork + [work];
    }

    method SetClaimed(a: nat, claimed: bool)
      requires a < |attempts|
      modifies this`attempts
      ensures attempts == old(attempts)[a := old(attempts)[a].(claimedPresence := claimed)]
    {
      attempts := attempts[a := attempts[a].(claimedPresence := claimed)];
    }

    /** `releasePresence` up to its await; `after` is what its caller does next. */
    method ReleasePresence(a: nat, after: Then)
      requires Refs(View()) && a < |attempts|
      modifies this
      ensures View() == Release(old(View()), a, after)
    {
      if !attempts[a].claimedPresence {
        running := Released(after);
        return;
      }
      if activeCall.Some? && activeCall.value != a && attempts[activeCall.value].claimedPresence
         && attempts[activeCall.value].target == attempts[a].target
      {
        pendingLeaves := Without(pendingLeaves, a);
        SetClaimed(a, false);
        running := Released(after);
        return;
      }
      running := LeaveSent(a, false, after);
    }

    method StartCall(target: CallTarget, connected: bool)
      requires Refs(View())
      modifies this
      ensures View() == Step(old(View()), CallSessions.Event.StartCall(target, connected))
      ensures if old(IsConnected(View(), target, connected))
              then View() == old(View())
              else activeCall == Some(old(|attempts|)) && QueuedStart(callWork, old(|attempts|))
    {
      if activeCall.Some? && attempts[activeCall.value].target == target
         && attempts[activeCall.value].room.Some? && connected
      {
        return;
      }
      var previous := ClearLocalCalls();
      var attempt := |attempts|;
      attempts := attempts + [Attempt(target, false, None)];
      activeCall := Some(attempt);
      QueueCallWork(StartWork(attempt, previous));
      assert callWork[|callWork| - 1].StartWork?;
    }

    method EndCall(target: CallTarget, ofRoom: Option<nat>)
      requires Refs(View())
      modifies this
      ensures View() == Step(old(View()), CallSessions.Event.EndCall(target, ofRoom))
      ensures if old(HangsUp(View(), target, ofRoom))
              then activeCall == None && QueuedRelease(callWork, old(activeCall).value)
              else View() == old(View())
    {
      if activeCall.None? || attempts[activeCall.value].target != target
         || (ofRoom.Some? && attempts[activeCall.value].room != ofRoom)
      {
        return;
      }
      var previous := ClearLocalCalls();
      QueueCallWork(EndWork(previous.value));
      assert ReleasedBy(callWork[|callWork| - 1], previous.value);
    }

    method RetryCallCleanup()
      requires Refs(View())
      modifies this
      ensures View() == Step(old(View()), RetryCleanup)
    {
      QueueCallWork(RetryWork);
    }

    /** The next work item starts. */
    method RunNext()
      requires Refs(View()) && running == Idle && callWork != []
      modifies this
      ensures View() == Step(old(View()), Begin)
    {
      var work := callWork[0];
      callWork := callWork[1..];
      match work {
        case StartWork(attempt, previous) =>
          if previous.Some? {
            ReleasePresence(previous.value, Connect(attempt));
          } else {
            Resume(Connect(attempt));
          }
        case EndWork(ended) => ReleasePresence(ended, Finish);
        case RetryWork => Resume(RetryNext(pendingLeaves));
      }
    }

    /** The loop over the pending leaves in `connectLiveKitWithPresence`. */
    method ClearPendingLeaves(a: nat, pending: seq<nat>)
      requires Refs(View()) && a < |attempts| && Names(|attempts|, pending)
      modifies this
      ensures View() == ClearNext(old(View()), a, pending)
    {
      var i := 0;
      while i < |pending| && attempts[pending[i]].target != attempts[a].target
        invariant i <= |pending| && View() == old(View())
        invariant ClearNext(View(), a, pending) == ClearNext(View(), a, pending[i..])
      {
        assert pending[i..][1..] == pending[i + 1..];
        i := i + 1;
      }
      if i < |pending| {
        assert pending[i..][1..] == pending[i + 1..];
        ReleasePresence(pending[i], ClearPending(a, pending[i + 1..]));
      } else {
        running := Connecting(a);
      }
    }

    /** A work item goes on after an awaited release has returned. */
    method Resume(after: Then)
      requires Refs(View()) && ThenNames(|attempts|, after)
      modifies this
      ensures View() == Continue(old(View()), after)
    {
      match after {
        case Connect(a) =>
          if activeCall == Some(a) {
            running := FetchingUrl(a);
          } else {
            ReleasePresence(a, Fail(a));
          }
        case ClearPending(a, rest) => ClearPendingLeaves(a, rest);
        case Fail(a) =>
          if activeCall == Some(a) {
            var _ := ClearLocalCalls();
          }
          running := Idle;
        case RetryNext(rest) =>
          if rest == [] {
            running := Idle;
          } else {
            ReleasePresence(rest[0], RetryNext(rest[1..]));
          }
        case Finish => running := Idle;
      }
    }

    /** The answer to the join: presence is claimed before the attempt is checked against the active call. */
    method JoinAnswered(accepted: bool)
      requires Refs(View()) && Enabled(View(), if accepted then JoinAcked else JoinRejected)
      modifies this
      ensures View() == Step(old(View()), if accepted then JoinAcked else JoinRejected)
    {
      var a := running.attempt;
      if accepted {
        SetClaimed(a, true);
      }
      if accepted && activeCall == Some(a) {
        ClearPendingLeaves(a, pendingLeaves);
      } else {
        ReleasePresence(a, Fail(a));
      }
    }

    method LeaveAnswered(accepted: bool)
      requires Refs(View()) && Enabled(View(), if accepted then LeaveAcked else LeaveFailed)
      modifies this
      ensures View() == Step(old(View()), if accepted then LeaveAcked else LeaveFailed)
    {
      var a := running.attempt;
      if accepted {
        SetClaimed(a, false);
        pendingLeaves := Without(pendingLeaves, a);
      } else if a !in pendingLeaves {
        pendingLeaves := pendingLeaves + [a];
      }
      running := Released(running.after);
    }

    /** The server applies the join or leave it was sent. */
    method ServerApplies(replaced: set<CallTarget>)
      requires Refs(View()) && (Enabled(View(), JoinApplied(replaced)) || Enabled(View(), LeaveApplied))
      modifies this
      ensures View() ==
        Step(old(View()), if old(running).JoinSent? then JoinApplied(replaced) else LeaveApplied)
    {
      if running.JoinSent? {
        presence := presence - replaced + {attempts[running.attempt].target};
      } else {
        presence := presence - {attempts[running.attempt].target};
      }
      running := running.(applied := true);
    }

    method UrlAnswered(ok: bool)
      requires Refs(View()) && running.FetchingUrl?
      modifies this
      ensures View() == Step(old(View()), UrlSettled(ok))
    {
      var a := running.attempt;
      if ok && activeCall == Some(a) {
        running := JoinSent(a, false);
      } else {
        ReleasePresence(a, Fail(a));
      }
    }

    method RoomConnected(room: nat)
      requires Refs(View()) && Enabled(View(), RoomAttached(room))
      modifies this
      ensures View() == Step(old(View()), RoomAttached(room))
    {
      var a := running.attempt;
      attempts := attempts[a := attempts[a].(room := Some(room))];
      if activeCall != Some(a) {
        ReleasePresence(a, Fail(a));
      }
    }

    method ConnectFinished(ok: bool)
      requires Refs(View()) && Enabled(View(), ConnectSettled(ok))
      modifies this
      ensures View() == Step(old(View()), ConnectSettled(ok))
    {
      var a := running.attempt;
      if ok && activeCall == Some(a) {
        running := Idle;
      } else {
        ReleasePresence(a, Fail(a));
      }
    }

    /** One turn of the work queue; what the remote side answers is arbitrary. */
    method Turn() returns (ghost e: Event)
      requires Inv(View()) && (running != Idle || callWork != [])
      modifies this
      ensures Enabled(old(View()), e) && !UserAction(e) && View() == Step(old(View()), e)
    {
      var ok := *;
      match running {
        case Idle =>
          e := Begin;
          RunNext();
        case Released(after) =>
          e := CallSessions.Event.Resume;
          Resume(after);
        case FetchingUrl(_) =>
          e := UrlSettled(ok);
          UrlAnswered(ok);
        case JoinSent(_, applied) =>
          var replaced: set<CallTarget> := *;
          e := if applied then JoinAcked else if ok then JoinApplied(replaced) else JoinRejected;
          if applied {
            JoinAnswered(true);
          } else if ok {
            ServerApplies(replaced);
          } else {
            JoinAnswered(false);
          }
        case LeaveSent(_, applied, _) =>
          e := if applied then LeaveAcked else if ok then LeaveApplied else LeaveFailed;
          if applied {
            LeaveAnswered(true);
          } else if ok {
            ServerApplies({});
          } else {
            LeaveAnswered(false);
          }
        case Connecting(a) =>
          var room: nat := *;
          var attaches := *;
          if attaches && attempts[a].room.None? {
            e := RoomAttached(room);
            RoomConnected(room);
          } else {
            ok := ok && attempts[a].room.Some?;
            e := ConnectSettled(ok);
            ConnectFinished(ok);
          }
      }
    }

    /**
      Once the user stops acting, the queue drains whatever the remote side
      answers; if no leave stayed pending, the server then agrees exactly with
      the active call.
    */
    method Settle()
      requires Inv(View())
      modifies this
      ensures Inv(View()) && running == Idle && callWork == [] && Exact(View())
      ensures pendingLeaves == [] ==>
        presence == if activeCall.Some? then {attempts[activeCall.value].target} else {}
    {
      while running != Idle || callWork != []
        invariant Inv(View())
        decreases |callWork|, Stage(running), |Unvisited(running)|, Answers(View())
      {
        ghost var before := View();
        ghost var e := Turn();
        StepKeepsInv(before, e);
        TurnsAdvance(before, e);
      }
      QuietAgrees(View());
    }
  }
}
