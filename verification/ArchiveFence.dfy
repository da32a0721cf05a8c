/**
  The restore fence and the archive together: the worker sees through a view
  whether the reference table is trusted, and deletes archived rows only then.
*/
module ArchiveFence {
  import opened Fence
  import Storage = StorageState
  import Calls = StorageCalls
  import Runs = StorageRuns
  import Rows = ArchiveRows
  import Archive = ArchiveReplication
  import Worker = ArchiveRuns

  /** `archive_replication_status`, as the registered worker sees it: the one flag `can_delete`. */
  function StatusView(db: Storage.Db): set<bool> {
    {Storage.IsReady(db)}
  }

  // ------------------------------------------------------------ the module's side

  predicate RebuildsAt(worlds: seq<Runs.World>, turns: seq<Runs.Turn>, i: nat)
    requires i < |turns| && |worlds| == |turns| + 1
  {
    turns[i].call.RebuildReferences? && Runs.Accepted(worlds[i], turns[i])
  }

  predicate RestoresAt(worlds: seq<Runs.World>, turns: seq<Runs.Turn>, i: nat)
    requires i < |turns| && |worlds| == |turns| + 1
  {
    Calls.IsRestore(turns[i].call) && Runs.Accepted(worlds[i], turns[i])
  }

  /** Only an accepted rebuild makes the index trusted. */
  lemma TurnKeepsUntrusted(worlds: seq<Runs.World>, turns: seq<Runs.Turn>, i: nat)
    requires Runs.IsRun(worlds, turns) && i < |turns|
    requires !Storage.IsReady(worlds[i].db) && !RebuildsAt(worlds, turns, i)
    ensures !Storage.IsReady(worlds[i + 1].db)
  {
    var w, turn := worlds[i], turns[i];
    Runs.RunKeepsInv(worlds, turns, i);
    assert Runs.TakesTurn(worlds, turns, i);
    if Runs.Accepted(w, turn) {
      if Calls.IsRestore(turn.call) {
        Calls.RestoreIsFenced(w.db, turn.at, turn.call);
      } else if !turn.call.ReleaseInitFence? {
        Runs.OtherCallsKeepFence(w.db, turn.at, turn.call);
      }
    }
  }

  /** The index is not trusted right after the start and right after a restore. */
  lemma UntrustedAt(worlds: seq<Runs.World>, turns: seq<Runs.Turn>, i: nat)
    requires Runs.IsRun(worlds, turns) && i < |worlds|
    requires i == 0 || RestoresAt(worlds, turns, i - 1)
    ensures !Storage.IsReady(worlds[i].db)
  {
    if i > 0 {
      var w, turn := worlds[i - 1], turns[i - 1];
      Runs.RunKeepsInv(worlds, turns, i - 1);
      assert Runs.TakesTurn(worlds, turns, i - 1);
      Calls.RestoreIsFenced(w.db, turn.at, turn.call);
    }
  }

  /** An accepted rebuild makes the view allow deletes again. */
  lemma RebuildAllowsDeletes(worlds: seq<Runs.World>, turns: seq<Runs.Turn>, i: nat)
    requires Runs.IsRun(worlds, turns) && i < |turns| && RebuildsAt(worlds, turns, i)
    ensures StatusView(worlds[i + 1].db) == {true}
  {
    assert Runs.TakesTurn(worlds, turns, i);
  }

  /** From the start or a restore until a rebuild goes through, the index is not trusted. */
  lemma {:induction false} UntrustedUntilRebuild(worlds: seq<Runs.World>, turns: seq<Runs.Turn>, m: nat, n: nat)
    requires Runs.IsRun(worlds, turns) && m <= n < |worlds|
    requires m == 0 || RestoresAt(worlds, turns, m - 1)
    requires forall i :: m <= i < n ==> !RebuildsAt(worlds, turns, i)
    ensures !Storage.IsReady(worlds[n].db)
    decreases n
  {
    if n == m {
      UntrustedAt(worlds, turns, n);
    } else {
      UntrustedUntilRebuild(worlds, turns, m, n - 1);
      TurnKeepsUntrusted(worlds, turns, n - 1);
    }
  }

  /** A trusted index goes back to an accepted rebuild no restore has followed. */
  lemma {:induction false} TrustHasRebuild(worlds: seq<Runs.World>, turns: seq<Runs.Turn>, n: nat) returns (r: nat)
    requires Runs.IsRun(worlds, turns) && n < |worlds| && Storage.IsReady(worlds[n].db)
    ensures r < n && RebuildsAt(worlds, turns, r) && !Storage.IsReady(worlds[r].db)
    ensures forall i :: r < i <= n ==> Storage.IsReady(worlds[i].db)
  {
    if n > 0 {
      r := n - 1;
      if Storage.IsReady(worlds[r].db) {
        r := TrustHasRebuild(worlds, turns, r);
      } else if !RebuildsAt(worlds, turns, r) {
        TurnKeepsUntrusted(worlds, turns, r);
      }
    }
  }

  /** Within 500 years of `init`, which set the fence. */
  predicate InitFenceStands(worlds: seq<Runs.World>, now: Micros)
    requires worlds != []
  {
    worlds[0].db.fence.Some? && now as int < worlds[0].now as int + 15_768_000_000_000_000
  }

  /** The fence was over when that rebuild went through. */
  ghost predicate FollowsFence(worlds: seq<Runs.World>, turns: seq<Runs.Turn>, r: nat)
    requires r < |turns| && |worlds| == |turns| + 1
  {
    && (forall m :: 0 <= m < r && RestoresAt(worlds, turns, m) ==>
          turns[m].at as int + 600_000_000 <= turns[r].at as int)
    && (InitFenceStands(worlds, turns[r].at) ==>
          exists l :: 0 <= l < r && Runs.LiftsInitFence(worlds[l], turns[l]))
  }

  lemma RebuildFollowsFence(worlds: seq<Runs.World>, turns: seq<Runs.Turn>, r: nat)
    requires Runs.IsRun(worlds, turns) && r < |turns|
    requires RebuildsAt(worlds, turns, r) && !Storage.IsReady(worlds[r].db)
    ensures FollowsFence(worlds, turns, r)
  {
    forall m | 0 <= m < r && RestoresAt(worlds, turns, m)
      ensures turns[m].at as int + 600_000_000 <= turns[r].at as int
    {
      RebuildFollowsQuiet(worlds, turns, m, r);
    }
    if InitFenceStands(worlds, turns[r].at) {
      if forall l :: 0 <= l < r ==> !Runs.LiftsInitFence(worlds[l], turns[l]) {
        assert Runs.TakesTurn(worlds, turns, r);
        Runs.RunKeepsInv(worlds, turns, r);
        Runs.InitFenceHolds(worlds, turns, r);
      }
    }
  }

  lemma RebuildFollowsQuiet(worlds: seq<Runs.World>, turns: seq<Runs.Turn>, m: nat, r: nat)
    requires Runs.IsRun(worlds, turns) && m < r < |turns| && RestoresAt(worlds, turns, m)
    requires RebuildsAt(worlds, turns, r) && !Storage.IsReady(worlds[r].db)
    ensures turns[m].at as int + 600_000_000 <= turns[r].at as int
  {
    Runs.RestoreIsRemembered(worlds, turns, m, r);
    Runs.RunKeepsInv(worlds, turns, r);
    assert Runs.TakesTurn(worlds, turns, r);
    FencesAreToldApart(worlds[r].lastRestore.value, turns[r].at);
  }

  // ------------------------------------------------------------ both sides together

  /**
    What the worker's cache shows of the status view at each of its moments is
    nothing, or the view at the moment `at` of the module, however late.
  */
  ghost predicate Observes(worlds: seq<Runs.World>, moments: seq<Worker.World>, at: seq<nat>) {
    && |at| == |moments|
    && forall i :: 0 <= i < |moments| ==>
         at[i] < |worlds| && (moments[i].status == {} || moments[i].status == StatusView(worlds[at[i]].db))
  }

  lemma OnlyTrustRemoves(worlds: seq<Runs.World>, moments: seq<Worker.World>, events: seq<Worker.Event>, at: seq<nat>,
                         i: nat, op: Archive.Op)
    requires Worker.IsRun(moments, events) && Observes(worlds, moments, at) && i < |events|
    requires op in Worker.Heard(moments[i], events[i]).ops && !op.Upsert?
    ensures Storage.IsReady(worlds[at[i + 1]].db)
  {
    Worker.DeletionIsGated(moments, events, i, op);
  }

  /**
    Whatever the worker enqueues that can remove archived rows, the module state
    it looked at had an accepted rebuild before it that no restore had followed,
    ten minutes or more after every restore before that rebuild; and within 500
    years of `init` a restore or a release had gone through before the rebuild.
  */
  lemma RemovalFollowsRebuild(worlds: seq<Runs.World>, turns: seq<Runs.Turn>, moments: seq<Worker.World>,
                              events: seq<Worker.Event>, at: seq<nat>, i: nat, op: Archive.Op) returns (r: nat)
    requires Runs.IsRun(worlds, turns) && Worker.IsRun(moments, events) && Observes(worlds, moments, at)
    requires i < |events| && op in Worker.Heard(moments[i], events[i]).ops && !op.Upsert?
    ensures r < at[i + 1] && RebuildsAt(worlds, turns, r) && FollowsFence(worlds, turns, r)
    ensures forall m :: r < m < at[i + 1] ==> !RestoresAt(worlds, turns, m)
  {
    OnlyTrustRemoves(worlds, moments, events, at, i, op);
    r := TrustHasRebuild(worlds, turns, at[i + 1]);
    RebuildFollowsFence(worlds, turns, r);
    forall m | r < m < at[i + 1] ensures !RestoresAt(worlds, turns, m) {
      if RestoresAt(worlds, turns, m) {
        UntrustedAt(worlds, turns, m + 1);
      }
    }
  }

  lemma UntrustedHearsUpserts(worlds: seq<Runs.World>, moments: seq<Worker.World>, events: seq<Worker.Event>,
                              at: seq<nat>, i: nat)
    requires Worker.IsRun(moments, events) && Observes(worlds, moments, at) && i < |events|
    requires !Storage.IsReady(worlds[at[i + 1]].db)
    ensures AllUpserts(Worker.Heard(moments[i], events[i]).ops)
  {
    forall op | op in Worker.Heard(moments[i], events[i]).ops ensures op.Upsert? {
      if !op.Upsert? {
        OnlyTrustRemoves(worlds, moments, events, at, i, op);
      }
    }
  }

  predicate AllUpserts(ops: seq<Archive.Op>) {
    forall op :: op in ops ==> op.Upsert?
  }

  /** A step that hears nothing but upserts keeps every archived row, also across failed tries and restarts. */
  lemma UpsertStepKeepsPlaces(w: Worker.World, event: Worker.Event)
    requires Worker.Enabled(w, event) && AllUpserts(w.pending) && AllUpserts(Worker.Heard(w, event).ops)
    ensures AllUpserts(Worker.Next(w, event).pending)
    ensures w.store.rows.Keys <= Worker.Next(w, event).store.rows.Keys
  {
  }

  /**
    The archive survives a wipe: while what the worker sees of the module lies
    between the wiped start, or an accepted restore, and the next accepted
    rebuild, no archived row is removed.
  */
  lemma {:induction false} ArchiveSurvivesRestore(worlds: seq<Runs.World>, turns: seq<Runs.Turn>,
                                                  moments: seq<Worker.World>, events: seq<Worker.Event>,
                                                  at: seq<nat>, m: nat, i: nat, j: nat)
    requires Runs.IsRun(worlds, turns) && Worker.IsRun(moments, events) && Observes(worlds, moments, at)
    requires i <= j < |moments| && AllUpserts(moments[i].pending)
    requires m < |worlds| && (m == 0 || RestoresAt(worlds, turns, m - 1))
    requires forall k :: i < k <= j ==> m <= at[k] && forall l :: m <= l < at[k] ==> !RebuildsAt(worlds, turns, l)
    ensures moments[i].store.rows.Keys <= moments[j].store.rows.Keys
    ensures AllUpserts(moments[j].pending)
    decreases j
  {
    if i < j {
      ArchiveSurvivesRestore(worlds, turns, moments, events, at, m, i, j - 1);
      assert Worker.TakesStep(moments, events, j - 1);
      UntrustedUntilRebuild(worlds, turns, m, at[j]);
      UntrustedHearsUpserts(worlds, moments, events, at, j - 1);
      UpsertStepKeepsPlaces(moments[j - 1], events[j - 1]);
    }
  }
}
