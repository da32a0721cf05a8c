/** Every run of a multipart upload. */
module UploadRuns {
  import opened Wrappers
  import opened UploadState

  ghost predicate TakesStep(p: Plan, states: seq<State>, events: seq<Event>, n: nat)
    requires n < |events| && |states| == |events| + 1
  {
    Enabled(p, states[n], events[n]) && states[n + 1] == Step(p, states[n], events[n])
  }

  ghost predicate IsRun(p: Plan, completed: set<nat>, states: seq<State>, events: seq<Event>) {
    && |states| == |events| + 1
    && (forall n :: n in completed ==> IsPart(p, n))
    && states[0] == Initial(p, completed, Bytes(p, completed))
    && forall n :: 0 <= n < |events| ==> TakesStep(p, states, events, n)
  }

  lemma {:induction false} RunKeepsInv(p: Plan, completed: set<nat>, states: seq<State>, events: seq<Event>, n: nat)
    requires IsRun(p, completed, states, events) && n < |states|
    ensures Inv(p, completed, states[n]) && InOrder(states[n])
  {
    if n == 0 {
      InitialInv(p, completed);
    } else {
      RunKeepsInv(p, completed, states, events, n - 1);
      assert TakesStep(p, states, events, n - 1);
      StepKeepsInv(p, completed, states[n - 1], events[n - 1]);
      StepKeepsOrder(p, completed, states[n - 1], events[n - 1]);
    }
  }

  /** Parts are started in ascending order. */
  lemma PartsStartInOrder(p: Plan, completed: set<nat>, states: seq<State>, events: seq<Event>, n: nat)
    requires IsRun(p, completed, states, events) && n < |events| && events[n] == Launch
    ensures states[n].pending != []
    ensures
      var part := states[n].pending[0];
      && states[n + 1].active == states[n].active[part := Uploading(1)] && part !in states[n].active
      && (forall m :: m in states[n].started ==> m < part)
      && (forall m :: IsPart(p, m) && m !in completed && m < part ==> m in states[n].put || m in states[n].active)
  {
    RunKeepsInv(p, completed, states, events, n);
    assert TakesStep(p, states, events, n);
    var s := states[n];
    assert s.pending[0] in s.pending;
    forall m | m in s.pending ensures m >= s.pending[0] {
      var i :| 0 <= i < |s.pending| && s.pending[i] == m;
    }
  }

  /**
    At all times the reported bytes fit the file, at most four parts are in the
    pool, and no part is tried four times.
  */
  lemma RunIsBounded(p: Plan, completed: set<nat>, states: seq<State>, events: seq<Event>, n: nat, part: nat)
    requires IsRun(p, completed, states, events) && n < |states|
    ensures states[n].doneBytes + Sum(states[n].inFlight, p.partCount) <= p.size
    ensures |states[n].active| <= 4
    ensures part in states[n].started ==> states[n].started[part] <= 3
  {
    RunKeepsInv(p, completed, states, events, n);
    NeverOverReported(p, completed, states[n]);
  }

  /** A run that ends without a failure uploaded the file: every byte once, all of it counted. */
  lemma UploadIsComplete(p: Plan, completed: set<nat>, states: seq<State>, events: seq<Event>, n: nat, byte: nat)
    requires IsRun(p, completed, states, events) && n < |states|
    requires Ended(states[n]) && states[n].failure == None
    requires byte < p.size
    ensures states[n].doneBytes == p.size
    ensures
      var part := byte / p.partSize + 1;
      && IsPart(p, part) && Start(p, part) <= byte < End(p, part)
      && (part in completed <==> part !in states[n].put)
      && (part in states[n].put ==> OnceIn(states[n].put, part))
      && (forall m: nat :: IsPart(p, m) && m != part ==> !(Start(p, m) <= byte < End(p, m)))
  {
    RunKeepsInv(p, completed, states, events, n);
    PartsPartitionFile(p, byte);
    EndIsComplete(p, completed, states[n], byte / p.partSize + 1);
    EndCountsFile(p, completed, states[n]);
  }

  function Steps(events: seq<Event>): nat {
    if events == [] then 0 else Steps(events[..|events| - 1]) + if events[|events| - 1].Progress? then 0 else 1
  }

  /** The pool loop terminates: no run has more than five steps a part, whatever fails. */
  lemma {:induction false} RunIsShort(p: Plan, completed: set<nat>, states: seq<State>, events: seq<Event>, n: nat)
    requires IsRun(p, completed, states, events) && n <= |events|
    ensures Steps(events[..n]) + Work(p, states[n]) <= 5 * p.partCount
  {
    if n == 0 {
      InitialWork(p, completed);
    } else {
      RunIsShort(p, completed, states, events, n - 1);
      StepDoesWork(p, completed, states, events, n - 1);
    }
  }

  lemma StepDoesWork(p: Plan, completed: set<nat>, states: seq<State>, events: seq<Event>, n: nat)
    requires IsRun(p, completed, states, events) && n < |events|
    ensures Steps(events[..n + 1]) + Work(p, states[n + 1]) <= Steps(events[..n]) + Work(p, states[n])
  {
    RunKeepsInv(p, completed, states, events, n);
    assert TakesStep(p, states, events, n);
    EventDoesWork(p, completed, states[n], events[n]);
    assert events[..n + 1][..n] == events[..n];
  }

  lemma InitialWork(p: Plan, completed: set<nat>)
    ensures Work(p, Initial(p, completed, Bytes(p, completed))) <= (MAX_TRIES + 2) * p.partCount
  {
    NoSum(p.partCount);
    assert Weights(map[]) == map[];
  }

  /** A run that has not ended can go on: a part can be launched, its try can end, or it can settle. */
  lemma NeverStuck(p: Plan, completed: set<nat>, states: seq<State>, events: seq<Event>, n: nat)
    requires IsRun(p, completed, states, events) && n < |states| && !Ended(states[n])
    ensures exists event: Event :: !event.Progress? && Enabled(p, states[n], event)
  {
    RunKeepsInv(p, completed, states, events, n);
    var s := states[n];
    if s.active == map[] {
      assert Enabled(p, s, Launch);
    } else {
      var part :| part in s.active;
      assert IsPart(p, part);
      if s.active[part].Uploading? {
        assert Enabled(p, s, Put(part, true));
      } else {
        assert Enabled(p, s, Settle(part));
      }
    }
  }

  // -------------------------------------------------------------- failed tries

  /** The `k`-th event gave `part` up with `error`: storage was full, or it was the third try. */
  predicate GivesUp(states: seq<State>, events: seq<Event>, k: nat, part: nat, error: Error)
    requires |states| == |events| + 1 && k < |events|
  {
    && events[k] == Fail(part, error)
    && (error == StorageFull || (part in states[k].active && states[k].active[part] == Uploading(3)))
  }

  ghost predicate GaveUp(states: seq<State>, events: seq<Event>, n: nat, part: nat, error: Error)
    requires |states| == |events| + 1 && n < |states|
  {
    exists k :: 0 <= k < n && GivesUp(states, events, k, part, error)
  }

  /** Every rejected part, and then the failure, goes back to a part that was given up. */
  ghost predicate Traced(states: seq<State>, events: seq<Event>, n: nat)
    requires |states| == |events| + 1 && n < |states|
  {
    && (states[n].failure == None ==>
          forall part :: part in states[n].active && states[n].active[part].Rejected? ==>
            GaveUp(states, events, n, part, states[n].active[part].error))
    && (states[n].failure.Some? ==> exists part :: GaveUp(states, events, n, part, states[n].failure.value))
  }

  lemma RejectedIsTraced(p: Plan, completed: set<nat>, states: seq<State>, events: seq<Event>, n: nat, part: nat)
    requires IsRun(p, completed, states, events) && n < |events| && Traced(states, events, n)
    requires Inv(p, completed, states[n]) && TakesStep(p, states, events, n) && states[n].failure == None
    requires part in states[n + 1].active && states[n + 1].active[part].Rejected?
    ensures GaveUp(states, events, n + 1, part, states[n + 1].active[part].error)
  {
    RejectedBy(p, completed, states[n], events[n], part);
    if states[n].active[part] == states[n + 1].active[part] {
      var k :| 0 <= k < n && GivesUp(states, events, k, part, states[n].active[part].error);
      assert GivesUp(states, events, k, part, states[n + 1].active[part].error);
    } else {
      assert GivesUp(states, events, n, part, states[n + 1].active[part].error);
    }
  }

  lemma {:induction false} RunIsTraced(p: Plan, completed: set<nat>, states: seq<State>, events: seq<Event>, n: nat)
    requires IsRun(p, completed, states, events) && n < |states|
    ensures Traced(states, events, n)
  {
    if n > 0 {
      RunIsTraced(p, completed, states, events, n - 1);
      RunKeepsInv(p, completed, states, events, n - 1);
      assert TakesStep(p, states, events, n - 1);
      if states[n - 1].failure.Some? {
        var part :| GaveUp(states, events, n - 1, part, states[n - 1].failure.value);
        assert GaveUp(states, events, n, part, states[n].failure.value);
      } else if states[n].failure.Some? {
        var part := events[n - 1].part;
        var k :| 0 <= k < n - 1 && GivesUp(states, events, k, part, states[n].failure.value);
        assert GaveUp(states, events, n, part, states[n].failure.value);
      } else {
        forall part | part in states[n].active && states[n].active[part].Rejected?
          ensures GaveUp(states, events, n, part, states[n].active[part].error)
        {
          RejectedIsTraced(p, completed, states, events, n - 1, part);
        }
      }
    }
  }

  /**
    Nothing fails early: in every run a failure is the error of some part whose
    third try failed, or the report that storage is full.
  */
  lemma FailureIsEarned(p: Plan, completed: set<nat>, states: seq<State>, events: seq<Event>, n: nat)
    requires IsRun(p, completed, states, events) && n < |states| && states[n].failure.Some?
    ensures exists k, part ::
      && 0 <= k < n && events[k] == Fail(part, states[n].failure.value)
      && (states[n].failure == Some(StorageFull) ||
          (part in states[k].active && states[k].active[part] == Uploading(3)))
    ensures states[n].failure == Some(StorageFull) ||
            exists part :: part in states[n].started && states[n].started[part] == 3
  {
    RunIsTraced(p, completed, states, events, n);
    var part :| GaveUp(states, events, n, part, states[n].failure.value);
    var k :| 0 <= k < n && GivesUp(states, events, k, part, states[n].failure.value);
    if states[n].failure != Some(StorageFull) {
      RunKeepsInv(p, completed, states, events, k);
      assert IsUploading(states[k], part);
      TriesGrow(p, completed, states, events, k, n, part);
      RunKeepsInv(p, completed, states, events, n);
    }
  }

  lemma {:induction false} TriesGrow(p: Plan, completed: set<nat>, states: seq<State>, events: seq<Event>,
                                     m: nat, n: nat, part: nat)
    requires IsRun(p, completed, states, events) && m <= n < |states| && part in states[m].started
    ensures part in states[n].started && states[n].started[part] >= states[m].started[part]
  {
    if m < n {
      TriesGrow(p, completed, states, events, m, n - 1, part);
      RunKeepsInv(p, completed, states, events, n - 1);
      assert TakesStep(p, states, events, n - 1);
      TriesOnlyGrow(p, completed, states[n - 1], events[n - 1], part);
    }
  }

  // ------------------------------------------------------------ the width of the pool

  function Puts(events: seq<Event>): nat {
    if events == [] then 0 else Puts(events[..|events| - 1]) + if events[|events| - 1].Put? then 1 else 0
  }

  /**
    The pool follows the speed of the link: as long as no try fails it is one
    part wider for every fast part, up to four, and one narrower for every slow
    one, down to one. It starts with one part, and a failed try narrows it to one.
  */
  lemma {:induction false} WidthFollowsSpeed(p: Plan, completed: set<nat>, states: seq<State>, events: seq<Event>,
                                             m: nat, n: nat, fast: bool)
    requires IsRun(p, completed, states, events) && m <= n < |states|
    requires forall k :: m <= k < n ==> !events[k].Fail? && (events[k].Put? ==> events[k].fast == fast)
    ensures states[n].limit ==
      if fast then Min(4, states[m].limit + Puts(events[m..n])) else Max(1, states[m].limit - Puts(events[m..n]))
    ensures m == 0 || events[m - 1].Fail? ==> states[m].limit == 1
  {
    WidthAt(p, completed, states, events, m);
    if m < n {
      WidthFollowsSpeed(p, completed, states, events, m, n - 1, fast);
      WidthAt(p, completed, states, events, n);
      assert events[m..n][..n - 1 - m] == events[m..n - 1];
    }
  }

  lemma WidthAt(p: Plan, completed: set<nat>, states: seq<State>, events: seq<Event>, n: nat)
    requires IsRun(p, completed, states, events) && n < |states|
    ensures 1 <= states[n].limit <= 4 && (n == 0 ==> states[n].limit == 1)
    ensures n > 0 ==>
      states[n].limit ==
      match events[n - 1]
      case Put(_, fast) => if fast then Min(4, states[n - 1].limit + 1) else Max(1, states[n - 1].limit - 1)
      case Fail(_, _) => 1
      case _ => states[n - 1].limit
  {
    PoolAt(p, completed, states, events, n);
    if n > 0 {
      PoolAt(p, completed, states, events, n - 1);
      assert TakesStep(p, states, events, n - 1);
      WidthChanges(p, states[n - 1], events[n - 1]);
    }
  }

  lemma PoolAt(p: Plan, completed: set<nat>, states: seq<State>, events: seq<Event>, n: nat)
    requires IsRun(p, completed, states, events) && n < |states|
    ensures PoolInv(states[n])
  {
    RunKeepsInv(p, completed, states, events, n);
  }

  /** The first failure is final, and from then on no try starts. */
  lemma {:induction false} FirstFailureIsFinal(p: Plan, completed: set<nat>, states: seq<State>, events: seq<Event>,
                                               m: nat, n: nat)
    requires IsRun(p, completed, states, events) && m <= n < |states| && states[m].failure.Some?
    ensures states[n].failure == states[m].failure && states[n].started == states[m].started
  {
    if m < n {
      FirstFailureIsFinal(p, completed, states, events, m, n - 1);
      assert TakesStep(p, states, events, n - 1);
      FailureStopsTries(p, states[n - 1], events[n - 1]);
    }
  }
}
