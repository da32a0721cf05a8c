/**
  What every run of the storage reducers keeps: while the index is trusted it
  lacks only the columns the last rebuild skipped, tombstones never meet a
  reference, and a collection never follows a restore too closely.
*/
module StorageRuns {
  import opened Wrappers
  import opened Text
  import opened ReferenceKeys
  import opened Attachments
  import opened Fence
  import opened StorageState
  import opened StorageCalls

  // ---------------------------------------------------------- rebuild and claim

  predicate RebuildReads(url: Option<string>, claims: map<string, Claim>) {
    url.Some? && IsUpload(url.value) && url.value !in claims ==> !Contains(url.value, "..")
  }

  /** No avatar or icon that can still be referenced has ".." in its key. */
  predicate NothingSkipped(db: Db) {
    && (forall u :: u in db.users ==> RebuildReads(db.users[u].avatarUrl, db.claims))
    && (forall id :: id in db.servers ==> RebuildReads(db.servers[id].iconUrl, db.claims))
  }

  lemma SkippedListing(db: Db, o: Owner, key: string)
    requires NothingSkipped(db) && Lists(db, o, key) && key !in db.claims
    ensures Restorable(db, o, key)
  {
  }

  /**
    A rebuild makes the index exact from any earlier table, if and only if it
    skips no avatar or icon. Setting an avatar or icon accepts a file name that
    holds "..", the rebuild does not read it.
  */
  lemma RebuildIsExactIff(db: Db, now: Micros, caller: Identity)
    requires Realistic(now) && !IsReady(db) && Rebuild(db, now, caller).Ok?
    ensures Exact(Rebuild(db, now, caller).value) <==> NothingSkipped(db)
  {
    var t := Rebuild(db, now, caller).value;
    assert forall o, k :: Lists(t, o, k) <==> Lists(db, o, k);
    forall o, k ensures Reference(o, k) in t.references <==> Restorable(db, o, k) && k !in db.claims {
      RebuiltIsRestorable(db, o, k);
    }
    if NothingSkipped(db) {
      forall o, k | Lists(db, o, k) && k !in db.claims ensures Restorable(db, o, k) {
        SkippedListing(db, o, k);
      }
    } else if u :| u in db.users && !RebuildReads(db.users[u].avatarUrl, db.claims) {
      assert Lists(t, AvatarOwner(db.users[u].username), db.users[u].avatarUrl.value);
    } else {
      var id :| id in db.servers && !RebuildReads(db.servers[id].iconUrl, db.claims);
      assert Lists(t, IconOwner(id), db.servers[id].iconUrl.value);
    }
  }

  /** A rebuild loses exactly the columns it skips. */
  lemma RebuildIndexes(db: Db, now: Micros, caller: Identity)
    requires Names(db) && Realistic(now) && !IsReady(db) && Rebuild(db, now, caller).Ok?
    ensures Indexed(Rebuild(db, now, caller).value, SkippedOwners(db))
  {
    var t := Rebuild(db, now, caller).value;
    assert forall o, k :: Lists(t, o, k) <==> Lists(db, o, k);
    forall o, k | Lists(db, o, k) ensures Restorable(db, o, k) <==> o !in SkippedOwners(db) {
      SkippedIsNotRestorable(db, o, k);
    }
    forall o, k ensures Reference(o, k) in t.references <==> Restorable(db, o, k) && k !in db.claims {
      RebuiltIsRestorable(db, o, k);
    }
  }

  lemma SkippedIsNotRestorable(db: Db, o: Owner, key: string)
    requires Names(db) && Lists(db, o, key)
    ensures Restorable(db, o, key) <==> o !in SkippedOwners(db)
  {
  }

  /** What an index that lacks the lost columns needs to be exact. */
  lemma IndexIsExactIff(db: Db, lost: set<Owner>)
    requires Indexed(db, lost)
    ensures Exact(db) <==> forall o, k :: o in lost && Lists(db, o, k) ==> k in db.claims
    ensures NothingSkipped(db) ==> Exact(db)
  {
    if Exact(db) {
      forall o, k | o in lost && Lists(db, o, k) ensures k in db.claims {
        assert Reference(o, k) in db.references <==> Lists(db, o, k) && k !in db.claims;
      }
    }
    if NothingSkipped(db) {
      forall o, k | o in lost && Lists(db, o, k) ensures k in db.claims {
        if k !in db.claims {
          SkippedListing(db, o, k);
        }
      }
    }
  }

  const DOTTED := "a..png"

  function DottedAvatar(name: string): string {
    "uploads" + "/" + ("avatar" + "/" + (name + "/" + DOTTED))
  }

  lemma FourSegments(a: string, b: string, c: string, d: string)
    requires SlashFree(a) && SlashFree(b) && SlashFree(c) && SlashFree(d)
    ensures Split(a + "/" + (b + "/" + (c + "/" + d))) == [a, b, c, d]
  {
    SplitSegment(d, "");
    SplitSegment(c, d);
    SplitSegment(b, c + "/" + d);
    SplitSegment(a, b + "/" + (c + "/" + d));
  }

  lemma DottedAvatarIsAvatar(name: string)
    requires IsAccountName(name)
    ensures IsAvatarKey(DottedAvatar(name), name)
  {
    FourSegments("uploads", "avatar", name, DOTTED);
  }

  lemma DottedAvatarIsSkipped(name: string)
    ensures Contains(DottedAvatar(name), "..")
  {
    var key := DottedAvatar(name);
    assert key[|key| - |DOTTED|..] == DOTTED;
    assert key[|key| - 5..|key| - 3] == "..";
    assert OccursAt(key, |key| - 5, "..");
  }

  /**
    For every account name there is an avatar key the profile update accepts
    and the next rebuild loses, which leaves the trusted index inexact.
  */
  lemma RebuildCanLoseAnAvatar(db: Db, now: Micros, caller: Identity, u: Identity)
    requires u in db.users && IsAccountName(db.users[u].username)
    requires db.users[u].avatarUrl == Some(DottedAvatar(db.users[u].username))
    requires db.users[u].avatarUrl.value !in db.claims
    ensures SyncAvatar(db, db.users[u].username, db.users[u].avatarUrl).Ok?
    ensures Realistic(now) && !IsReady(db) && Rebuild(db, now, caller).Ok? ==>
      !Exact(Rebuild(db, now, caller).value)
  {
    DottedAvatarIsAvatar(db.users[u].username);
    DottedAvatarIsSkipped(db.users[u].username);
    AdmittedKeyIsUpload(db.users[u].avatarUrl.value, AvatarScope(db.users[u].username));
    if Realistic(now) && !IsReady(db) && Rebuild(db, now, caller).Ok? {
      RebuildIsExactIff(db, now, caller);
    }
  }

  lemma ClaimKeepsIndex(db: Db, lost: set<Owner>, now: Micros, caller: Identity, batchId: string, keys: seq<string>)
    requires Indexed(db, lost) && ClaimUnreferenced(db, now, caller, batchId, keys).Ok?
    ensures Indexed(ClaimUnreferenced(db, now, caller, batchId, keys).value, lost)
  {
    var t := ClaimUnreferenced(db, now, caller, batchId, keys).value;
    assert forall o, k :: Lists(t, o, k) <==> Lists(db, o, k);
    forall o, k ensures Reference(o, k) in t.references <==> Lists(t, o, k) && k !in t.claims && o !in lost {
      if Reference(o, k) in db.references {
        assert Referenced(db.references, k);
      }
    }
  }

  /** A claim step tombstones exactly the submitted keys without a reference. */
  lemma ClaimIsExact(db: Db, now: Micros, caller: Identity, batchId: string, keys: seq<string>, key: string)
    requires ClaimUnreferenced(db, now, caller, batchId, keys).Ok?
    ensures
      var t := ClaimUnreferenced(db, now, caller, batchId, keys).value;
      key in t.claims <==> key in db.claims || (key in keys && !Referenced(db.references, key))
  {
  }

  /** A claim step hits a submitted key exactly when every row that lists it is a lost column. */
  lemma ClaimHitsIff(db: Db, lost: set<Owner>, now: Micros, caller: Identity, batchId: string, keys: seq<string>,
                     key: string)
    requires Indexed(db, lost) && ClaimUnreferenced(db, now, caller, batchId, keys).Ok? && key !in db.claims
    ensures key in ClaimUnreferenced(db, now, caller, batchId, keys).value.claims <==>
      key in keys && forall o :: Lists(db, o, key) ==> o in lost
  {
    ClaimIsExact(db, now, caller, batchId, keys, key);
    if Referenced(db.references, key) {
      var r :| r in db.references && r.storageKey == key;
      assert Reference(r.owner, key) == r;
    } else {
      forall o | Lists(db, o, key) ensures o in lost {
        assert Reference(o, key) in db.references <==> Lists(db, o, key) && key !in db.claims && o !in lost;
      }
    }
  }

  /**
    The whole failing family: straight after a rebuild a submitted key is newly
    claimed exactly when no row lists it in a way the rebuild reads, so the
    avatars and icons the rebuild skipped are collected while in use.
  */
  lemma SkippedKeyIsCollected(db: Db, now: Micros, caller: Identity, later: Micros, batchId: string,
                              keys: seq<string>, key: string)
    requires Realistic(now) && !IsReady(db) && Rebuild(db, now, caller).Ok?
    requires ClaimUnreferenced(Rebuild(db, now, caller).value, later, caller, batchId, keys).Ok?
    requires key in keys && key !in db.claims
    ensures key in ClaimUnreferenced(Rebuild(db, now, caller).value, later, caller, batchId, keys).value.claims <==>
      forall o :: !Restorable(db, o, key)
  {
    var t := Rebuild(db, now, caller).value;
    ClaimIsExact(t, later, caller, batchId, keys, key);
    if Referenced(t.references, key) {
      var r :| r in t.references && r.storageKey == key;
      RebuiltIsRestorable(db, r.owner, key);
      assert r == Reference(r.owner, key);
    } else {
      forall o ensures !Restorable(db, o, key) {
        RebuiltIsRestorable(db, o, key);
        assert Restorable(db, o, key) ==> Reference(o, key) in t.references;
      }
    }
  }

  // ------------------------------------------------------------- one step

  /** Every call that goes through keeps the invariant. */
  lemma CallKeepsInv(db: Db, lost: set<Owner>, now: Micros, call: Call)
    requires Inv(db, lost) && Realistic(now) && Perform(db, now, call).Ok?
    ensures
      var t := Perform(db, now, call).value;
      Inv(t, LostAfter(db, t, call, lost))
  {
    if IsMessageCall(call) {
      MessageCallKeepsInv(db, lost, call);
    } else if IsUserCall(call) {
      UserCallKeepsInv(db, lost, call);
    } else if IsServerCall(call) {
      ServerCallKeepsInv(db, lost, call);
    } else if IsRestore(call) {
      RestoreIsFenced(db, now, call);
    } else {
      StorageCallKeepsInv(db, lost, now, call);
    }
  }

  lemma MessageCallKeepsInv(db: Db, lost: set<Owner>, call: Call)
    requires Inv(db, lost) && IsMessageCall(call) && PerformMessage(db, call).Ok?
    ensures Inv(PerformMessage(db, call).value, lost)
  {
    MessageCallIsSound(db, call);
    if IsReady(db) {
      match call
      case SendMessage(id, channel, sender, content) =>
        SendKeepsIndex(db, lost, id, Message(channel, sender, content, false));
      case EditMessage(id, sender, content) => EditKeepsIndex(db, lost, id, sender, content);
      case DeleteMessage(id) => DeleteKeepsIndex(db, lost, id);
      case DeleteChannel(channel) => DeleteChannelKeepsIndex(db, lost, channel);
      case SendDirectMessage(id, sender, recipient, content) =>
        SendDirectKeepsIndex(db, lost, id, DirectMessage(sender, recipient, content, false, false));
      case EditDirectMessage(id, sender, content) => EditDirectKeepsIndex(db, lost, id, sender, content);
      case DeleteDirectMessage(id, caller) => DeleteDirectKeepsIndex(db, lost, id, caller);
    }
  }

  lemma UserCallKeepsInv(db: Db, lost: set<Owner>, call: Call)
    requires Inv(db, lost) && IsUserCall(call) && PerformUser(db, call).Ok?
    ensures
      var t := PerformUser(db, call).value;
      Inv(t, LostAfter(db, t, call, lost))
  {
    UserCallIsSound(db, call);
    if IsReady(db) {
      match call
      case RegisterUser(caller, _, _) => UserRowKeepsIndex(db, PerformUser(db, call).value, lost, caller);
      case UpdateProfile(caller, avatarUrl) => ProfileKeepsIndex(db, lost, caller, avatarUrl);
      case SetAdmin(user, isAdmin) => UserRowKeepsIndex(db, PerformUser(db, call).value, lost, user);
    }
  }

  lemma ServerCallKeepsInv(db: Db, lost: set<Owner>, call: Call)
    requires Inv(db, lost) && IsServerCall(call) && PerformServer(db, call).Ok?
    ensures
      var t := PerformServer(db, call).value;
      Inv(t, LostAfter(db, t, call, lost))
  {
    ServerCallIsSound(db, call);
    if IsReady(db) {
      match call
      case CreateServer(id) => CreateServerKeepsIndex(db, lost, id);
      case SetServerIcon(id, caller, iconUrl) => IconKeepsIndex(db, lost, id, caller, iconUrl);
      case DeleteServer(id) => DeleteServerKeepsIndex(db, lost, id);
    }
  }

  lemma StorageCallKeepsInv(db: Db, lost: set<Owner>, now: Micros, call: Call)
    requires Inv(db, lost) && Realistic(now) && Perform(db, now, call).Ok?
    requires call.RebuildReferences? || call.ReleaseInitFence? || call.ClaimStorage?
    ensures
      var t := Perform(db, now, call).value;
      Inv(t, LostAfter(db, t, call, lost))
  {
    match call
    case RebuildReferences(caller) => RebuildKeepsInv(db, lost, now, caller);
    case ReleaseInitFence(caller, oldestObjectAt) => ReleaseKeepsInv(db, lost, now, caller, oldestObjectAt);
    case ClaimStorage(caller, batchId, keys) => ClaimKeepsInv(db, lost, now, caller, batchId, keys);
  }

  lemma RebuildKeepsInv(db: Db, lost: set<Owner>, now: Micros, caller: Identity)
    requires Inv(db, lost) && Realistic(now) && Rebuild(db, now, caller).Ok?
    ensures Inv(Rebuild(db, now, caller).value, if IsReady(db) then lost else SkippedOwners(db))
  {
    if !IsReady(db) {
      RebuildIndexes(db, now, caller);
    }
  }

  lemma ReleaseKeepsInv(db: Db, lost: set<Owner>, now: Micros, caller: Identity, oldestObjectAt: Option<Micros>)
    requires Inv(db, lost) && Realistic(now) && Release(db, now, caller, oldestObjectAt).Ok?
    ensures Inv(Release(db, now, caller, oldestObjectAt).value, lost)
  {
    var t := Release(db, now, caller, oldestObjectAt).value;
    assert t == db.(fence := t.fence);
    if IsReady(db) {
      SameListsKeepIndex(db, t, lost);
    }
  }

  lemma ClaimKeepsInv(db: Db, lost: set<Owner>, now: Micros, caller: Identity, batchId: string, keys: seq<string>)
    requires Inv(db, lost) && ClaimUnreferenced(db, now, caller, batchId, keys).Ok?
    ensures Inv(ClaimUnreferenced(db, now, caller, batchId, keys).value, lost)
  {
    ClaimKeepsIndex(db, lost, now, caller, batchId, keys);
  }

  // -------------------------------------------------------------- whole runs

  /**
    The database, the clock, when the last restore batch ran, and the columns
    the last rebuild skipped that nobody has set since.
  */
  datatype World = World(db: Db, now: Micros, lastRestore: Option<Micros>, lost: set<Owner>)

  datatype Turn = Turn(at: Micros, call: Call)

  /** The clock does not run backwards. */
  predicate CanTake(w: World, turn: Turn) {
    w.now <= turn.at && Realistic(turn.at)
  }

  predicate Accepted(w: World, turn: Turn) {
    Realistic(turn.at) && Perform(w.db, turn.at, turn.call).Ok?
  }

  /** A refused call only lets time pass. */
  function Next(w: World, turn: Turn): World
    requires Realistic(turn.at)
  {
    match Perform(w.db, turn.at, turn.call)
    case Err(_) => w.(now := turn.at)
    case Ok(db) =>
      World(db, turn.at, if IsRestore(turn.call) then Some(turn.at) else w.lastRestore,
            LostAfter(w.db, db, turn.call, w.lost))
  }

  /** After `init`, or after an upgrade that has just added the empty tables. */
  predicate IsStart(w: World) {
    && w.db.references == {} && w.db.ready == None && w.db.claims == map[] && w.db.batches == map[]
    && Names(w.db) && Realistic(w.now) && w.lastRestore == None && w.lost == {}
    && (w.db.fence.Some? ==> w.db.fence.value == InitFence(w.now))
  }

  ghost predicate TakesTurn(worlds: seq<World>, turns: seq<Turn>, n: nat)
    requires n < |turns| && |worlds| == |turns| + 1
  {
    CanTake(worlds[n], turns[n]) && worlds[n + 1] == Next(worlds[n], turns[n])
  }

  ghost predicate IsRun(worlds: seq<World>, turns: seq<Turn>) {
    && |worlds| == |turns| + 1 && IsStart(worlds[0])
    && forall i :: 0 <= i < |turns| ==> TakesTurn(worlds, turns, i)
  }

  /** The fence stands where the last restore put it, and the index is trusted only once it is over. */
  predicate FenceInv(w: World) {
    match w.lastRestore
    case Some(t) =>
      0 <= t <= w.now && w.db.fence == Some(t) && (IsReady(w.db) ==> t <= w.now - RESTORE_QUIET)
    case None => w.db.fence.Some? ==> w.db.fence.value >= INIT_FENCE_OFFSET
  }

  ghost predicate WorldInv(w: World) {
    Inv(w.db, w.lost) && Realistic(w.now) && FenceInv(w)
  }

  /** Only a restore, a rebuild or a release touches the fence or the readiness of the index. */
  lemma OtherCallsKeepFence(db: Db, now: Micros, call: Call)
    requires Names(db) && Disjoint(db) && Realistic(now) && Perform(db, now, call).Ok?
    requires !IsRestore(call) && !call.RebuildReferences? && !call.ReleaseInitFence?
    ensures Perform(db, now, call).value.fence == db.fence && Perform(db, now, call).value.ready == db.ready
  {
    if IsMessageCall(call) {
      MessageCallIsSound(db, call);
    } else if IsUserCall(call) {
      UserCallIsSound(db, call);
    } else if IsServerCall(call) {
      ServerCallIsSound(db, call);
    }
  }

  lemma TurnKeepsFence(w: World, turn: Turn)
    requires WorldInv(w) && CanTake(w, turn) && Accepted(w, turn)
    ensures FenceInv(Next(w, turn))
  {
    if IsRestore(turn.call) {
      RestoreIsFenced(w.db, turn.at, turn.call);
    } else if turn.call.RebuildReferences? {
      if w.lastRestore.Some? {
        FencesAreToldApart(w.lastRestore.value, turn.at);
      }
    } else if turn.call.ReleaseInitFence? {
      if w.lastRestore.Some? {
        FencesAreToldApart(w.lastRestore.value, turn.at);
      }
    } else {
      OtherCallsKeepFence(w.db, turn.at, turn.call);
    }
  }

  lemma TurnKeepsInv(w: World, turn: Turn)
    requires WorldInv(w) && CanTake(w, turn)
    ensures WorldInv(Next(w, turn))
  {
    if Accepted(w, turn) {
      CallKeepsInv(w.db, w.lost, turn.at, turn.call);
      TurnKeepsFence(w, turn);
    }
  }

  lemma {:induction false} RunKeepsInv(worlds: seq<World>, turns: seq<Turn>, n: nat)
    requires IsRun(worlds, turns) && n < |worlds|
    ensures WorldInv(worlds[n])
  {
    if n > 0 {
      RunKeepsInv(worlds, turns, n - 1);
      assert TakesTurn(worlds, turns, n - 1);
      TurnKeepsInv(worlds[n - 1], turns[n - 1]);
    }
  }

  /**
    Index exactness, in every run: whenever the index is trusted it holds the
    pairs of live row and unclaimed key, less exactly the lost columns. So it is
    exact if and only if no lost column still lists an unclaimed key, and it is
    exact when the rows hold nothing a rebuild would skip. Trusted or not, it
    never holds a tombstoned key.
  */
  lemma TrustedIndexIsExactIff(worlds: seq<World>, turns: seq<Turn>, n: nat)
    requires IsRun(worlds, turns) && n < |worlds|
    ensures Disjoint(worlds[n].db)
    ensures IsReady(worlds[n].db) ==> Indexed(worlds[n].db, worlds[n].lost)
    ensures
      var w := worlds[n];
      IsReady(w.db) ==>
        (Exact(w.db) <==> forall o, k :: o in w.lost && Lists(w.db, o, k) ==> k in w.db.claims)
    ensures IsReady(worlds[n].db) && NothingSkipped(worlds[n].db) ==> Exact(worlds[n].db)
  {
    RunKeepsInv(worlds, turns, n);
    if IsReady(worlds[n].db) {
      IndexIsExactIff(worlds[n].db, worlds[n].lost);
    }
  }

  /** The turn is a rebuild that goes through and skips the column of `o`. */
  predicate Skips(w: World, turn: Turn, o: Owner) {
    turn.call.RebuildReferences? && Accepted(w, turn) && !IsReady(w.db) && o in SkippedOwners(w.db)
  }

  lemma LostTurn(worlds: seq<World>, turns: seq<Turn>, n: nat, o: Owner)
    requires IsRun(worlds, turns) && n < |turns| && o in worlds[n + 1].lost && !Skips(worlds[n], turns[n], o)
    ensures o in worlds[n].lost
  {
    var w, turn := worlds[n], turns[n];
    assert TakesTurn(worlds, turns, n);
    if Accepted(w, turn) {
      assert Next(w, turn).lost == LostAfter(w.db, Perform(w.db, turn.at, turn.call).value, turn.call, w.lost);
    }
  }

  /** The rebuild of turn `m` skipped the column of `o`, and it has been lost ever since. */
  predicate LostSince(worlds: seq<World>, turns: seq<Turn>, m: nat, n: nat, o: Owner)
    requires m < n < |worlds| && |worlds| == |turns| + 1
  {
    Skips(worlds[m], turns[m], o) && forall i :: m < i <= n ==> o in worlds[i].lost
  }

  /** A column is lost only because some rebuild found two dots in its key. */
  lemma {:induction false} LostWasSkipped(worlds: seq<World>, turns: seq<Turn>, n: nat, o: Owner) returns (m: nat)
    requires IsRun(worlds, turns) && n < |worlds| && o in worlds[n].lost
    ensures m < n && LostSince(worlds, turns, m, n, o)
  {
    if n > 0 {
      m := n - 1;
      if !Skips(worlds[m], turns[m], o) {
        LostTurn(worlds, turns, n - 1, o);
        m := LostWasSkipped(worlds, turns, n - 1, o);
      }
    }
  }

  /** Tombstones are permanent. */
  lemma CallKeepsClaims(db: Db, now: Micros, call: Call)
    requires Names(db) && Disjoint(db) && Realistic(now) && Perform(db, now, call).Ok?
    ensures db.claims.Keys <= Perform(db, now, call).value.claims.Keys
    ensures !call.ClaimStorage? ==> Perform(db, now, call).value.claims == db.claims
  {
    if IsMessageCall(call) {
      MessageCallIsSound(db, call);
    } else if IsUserCall(call) {
      UserCallIsSound(db, call);
    } else if IsServerCall(call) {
      ServerCallIsSound(db, call);
    } else if IsRestore(call) {
      RestoreIsFenced(db, now, call);
    }
  }

  /**
    Claim safety, in every run: a key is newly tombstoned exactly when an
    accepted claim submits it and every live row that lists it is a lost column.
    No key a rebuild would read is ever hit, none at all while nothing in the
    rows would be skipped, and no step takes a tombstone back.
  */
  lemma ClaimsAreSafeIff(worlds: seq<World>, turns: seq<Turn>, n: nat, key: string)
    requires IsRun(worlds, turns) && n < |turns|
    ensures key in worlds[n].db.claims ==> key in worlds[n + 1].db.claims
    ensures key !in worlds[n].db.claims ==>
      (key in worlds[n + 1].db.claims <==>
        && turns[n].call.ClaimStorage? && Accepted(worlds[n], turns[n]) && key in turns[n].call.keys
        && forall o :: Lists(worlds[n].db, o, key) ==> o in worlds[n].lost)
    ensures key !in worlds[n].db.claims && key in worlds[n + 1].db.claims ==>
      forall o :: !Restorable(worlds[n].db, o, key)
    ensures NothingSkipped(worlds[n].db) && key !in worlds[n].db.claims && key in worlds[n + 1].db.claims ==>
      forall o :: !Lists(worlds[n].db, o, key)
  {
    RunKeepsInv(worlds, turns, n);
    var w, turn := worlds[n], turns[n];
    assert TakesTurn(worlds, turns, n);
    if Accepted(w, turn) {
      CallKeepsClaims(w.db, turn.at, turn.call);
      if key !in w.db.claims && turn.call.ClaimStorage? {
        ClaimHitsIff(w.db, w.lost, turn.at, turn.call.caller, turn.call.batchId, turn.call.keys, key);
        if NothingSkipped(w.db) {
          forall o | Lists(w.db, o, key) ensures Restorable(w.db, o, key) {
            SkippedListing(w.db, o, key);
          }
        }
      }
    }
  }

  const BATCH := "00000000000000000000000000000000"

  lemma BatchIsBatchId()
    ensures IsBatchId(BATCH)
  {
    assert forall c :: c in BATCH ==> c == '0';
  }

  lemma DottedProfileIsAccepted(db: Db, now: Micros, u: Identity)
    requires Names(db) && Realistic(now) && u in db.users && db.claims == map[]
    requires IsAccountName(db.users[u].username)
    requires forall o :: !Lists(db, o, DottedAvatar(db.users[u].username))
    ensures
      var key := DottedAvatar(db.users[u].username);
      var r := Perform(db, now, UpdateProfile(u, Some(key)));
      && r.Ok?
      && r.value == db.(users := db.users[u := db.users[u].(avatarUrl := Some(key))], references := r.value.references)
      && (forall o :: Lists(r.value, o, key) <==> o == AvatarOwner(db.users[u].username))
      && AvatarOwner(db.users[u].username) in SkippedOwners(r.value)
  {
    var name := db.users[u].username;
    var key := DottedAvatar(name);
    DottedAvatarIsAvatar(name);
    DottedAvatarIsSkipped(name);
    AdmittedKeyIsUpload(key, AvatarScope(name));
    assert !Lists(db, AvatarOwner(name), key);
    var t := PerformProfile(db, u, Some(key)).value;
    AvatarListsChange(db, t, u, Some(key));
    assert t.users[u].username == name && IsSkipped(t.users[u].avatarUrl);
  }

  lemma UnfencedRebuildIsAccepted(w: World, u: Identity)
    requires Realistic(w.now) && IsAdmin(w.db, u) && w.db.ready == None && w.db.fence == None
    ensures
      var turn := Turn(w.now, RebuildReferences(u));
      var v := Next(w, turn);
      && CanTake(w, turn) && IsReady(v.db) && IsAdmin(v.db, u) && v.db.claims == w.db.claims && v.now == w.now
      && v.lost == SkippedOwners(w.db) && forall o, k :: Lists(v.db, o, k) <==> Lists(w.db, o, k)
  {
  }

  lemma ClaimIsAccepted(w: World, u: Identity, key: string)
    requires Realistic(w.now) && IsAdmin(w.db, u) && IsReady(w.db)
    ensures
      var turn := Turn(w.now, ClaimStorage(u, BATCH, [key]));
      CanTake(w, turn) && Accepted(w, turn) && forall o, k :: Lists(Next(w, turn).db, o, k) <==> Lists(w.db, o, k)
  {
    BatchIsBatchId();
    var r := ClaimUnreferenced(w.db, w.now, u, BATCH, [key]);
    assert r == Ok(w.db.(batches := r.value.batches, claims := r.value.claims));
  }

  /**
    Without the condition claim safety fails: from every start without a fence,
    an administrator who sets such an avatar, rebuilds, and submits its key to a
    claim collects the avatar while the row still lists it.
  */
  lemma AvatarInUseCanBeCollected(w: World, u: Identity) returns (worlds: seq<World>, turns: seq<Turn>)
    requires IsStart(w) && w.db.fence == None && IsAdmin(w.db, u) && IsAccountName(w.db.users[u].username)
    requires forall o :: !Lists(w.db, o, DottedAvatar(w.db.users[u].username))
    ensures IsRun(worlds, turns) && worlds[0] == w && |turns| == 3
    ensures
      var o, key := AvatarOwner(w.db.users[u].username), DottedAvatar(w.db.users[u].username);
      key !in worlds[2].db.claims && key in worlds[3].db.claims && Lists(worlds[3].db, o, key)
  {
    var name := w.db.users[u].username;
    var key := DottedAvatar(name);
    turns := [Turn(w.now, UpdateProfile(u, Some(key))), Turn(w.now, RebuildReferences(u)),
              Turn(w.now, ClaimStorage(u, BATCH, [key]))];
    DottedProfileIsAccepted(w.db, w.now, u);
    var used := Next(w, turns[0]);
    UnfencedRebuildIsAccepted(used, u);
    var rebuilt := Next(used, turns[1]);
    ClaimIsAccepted(rebuilt, u, key);
    worlds := [w, used, rebuilt, Next(rebuilt, turns[2])];
    assert TakesTurn(worlds, turns, 0) && TakesTurn(worlds, turns, 1) && TakesTurn(worlds, turns, 2);
    ClaimsAreSafeIff(worlds, turns, 2, key);
  }

  lemma TurnKeepsClaims(w: World, turn: Turn)
    requires WorldInv(w) && CanTake(w, turn)
    ensures w.db.claims.Keys <= Next(w, turn).db.claims.Keys
  {
    if Accepted(w, turn) {
      CallKeepsClaims(w.db, turn.at, turn.call);
    }
  }

  lemma {:induction false} ClaimsAreForever(worlds: seq<World>, turns: seq<Turn>, m: nat, n: nat)
    requires IsRun(worlds, turns) && m <= n < |worlds|
    ensures worlds[m].db.claims.Keys <= worlds[n].db.claims.Keys
    decreases n
  {
    if m < n {
      ClaimsAreForever(worlds, turns, m, n - 1);
      RunKeepsInv(worlds, turns, n - 1);
      assert TakesTurn(worlds, turns, n - 1);
      TurnKeepsClaims(worlds[n - 1], turns[n - 1]);
    }
  }

  lemma TurnRemembers(w: World, turn: Turn)
    requires CanTake(w, turn)
    ensures Next(w, turn).now == turn.at
    ensures Next(w, turn).lastRestore ==
      if IsRestore(turn.call) && Accepted(w, turn) then Some(turn.at) else w.lastRestore
  {
  }

  lemma {:induction false} RestoreIsRemembered(worlds: seq<World>, turns: seq<Turn>, m: nat, n: nat)
    requires IsRun(worlds, turns) && m < n < |worlds| && IsRestore(turns[m].call) && Accepted(worlds[m], turns[m])
    ensures worlds[n].lastRestore.Some? && turns[m].at <= worlds[n].lastRestore.value
    decreases n
  {
    assert TakesTurn(worlds, turns, n - 1);
    TurnRemembers(worlds[n - 1], turns[n - 1]);
    if m < n - 1 {
      RestoreIsRemembered(worlds, turns, m, n - 1);
      RunKeepsInv(worlds, turns, n - 1);
    }
  }

  /** Fence timing: an accepted claim has no accepted restore batch in the ten minutes before it. */
  lemma ClaimFollowsQuiet(worlds: seq<World>, turns: seq<Turn>, m: nat, n: nat)
    requires IsRun(worlds, turns) && m < n < |turns|
    requires IsRestore(turns[m].call) && Accepted(worlds[m], turns[m])
    requires turns[n].call.ClaimStorage? && Accepted(worlds[n], turns[n])
    ensures turns[m].at as int + 600_000_000 <= turns[n].at as int
  {
    RestoreIsRemembered(worlds, turns, m, n);
    RunKeepsInv(worlds, turns, n);
    assert TakesTurn(worlds, turns, n);
  }

  predicate LiftsInitFence(w: World, turn: Turn) {
    (IsRestore(turn.call) || turn.call.ReleaseInitFence?) && Accepted(w, turn)
  }

  /** For 500 years after `init`, the fence keeps the index untrusted until a restore or a release goes through. */
  lemma {:induction false} InitFenceHolds(worlds: seq<World>, turns: seq<Turn>, n: nat)
    requires IsRun(worlds, turns) && n < |worlds|
    requires worlds[0].db.fence.Some?
    requires worlds[n].now < worlds[0].now + 15_768_000_000_000_000
    requires forall i :: 0 <= i < n ==> !LiftsInitFence(worlds[i], turns[i])
    ensures worlds[n].db.fence == Some(InitFence(worlds[0].now)) && !IsReady(worlds[n].db)
    ensures worlds[0].now <= worlds[n].now
    ensures n < |turns| && turns[n].call.RebuildReferences? && turns[n].at < worlds[0].now + 15_768_000_000_000_000 ==>
      !Accepted(worlds[n], turns[n])
  {
    if n > 0 {
      var w, turn := worlds[n - 1], turns[n - 1];
      assert TakesTurn(worlds, turns, n - 1);
      InitFenceHolds(worlds, turns, n - 1);
      RunKeepsInv(worlds, turns, n - 1);
      FencesAreToldApart(worlds[0].now, turn.at);
      if Accepted(w, turn) && !turn.call.RebuildReferences? {
        assert !LiftsInitFence(w, turn);
        OtherCallsKeepFence(w.db, turn.at, turn.call);
      }
    }
    if n < |turns| {
      assert TakesTurn(worlds, turns, n);
      FencesAreToldApart(worlds[0].now, turns[n].at);
    }
  }

  /** `release_storage_init_fence` never lifts the fence of a restore. */
  lemma ReleaseKeepsRestoreFence(worlds: seq<World>, turns: seq<Turn>, n: nat)
    requires IsRun(worlds, turns) && n < |turns| && turns[n].call.ReleaseInitFence?
    requires worlds[n].lastRestore.Some?
    ensures worlds[n + 1].db == worlds[n].db
  {
    RunKeepsInv(worlds, turns, n);
    assert TakesTurn(worlds, turns, n);
    FencesAreToldApart(worlds[n].lastRestore.value, turns[n].at);
  }

  // -------------------------------------------------------------- the cleanup view

  /**
    Right after a claim under a new batch id the view shows the sentinel and,
    in one row each and all under that batch id, exactly the submitted keys
    that are unreferenced.
  */
  lemma CleanupViewIsExact(db: Db, now: Micros, caller: Identity, batchId: string, keys: seq<string>)
    requires ClaimUnreferenced(db, now, caller, batchId, keys).Ok?
    requires forall k :: k in db.claims ==> db.claims[k].batchId != batchId
    ensures
      var rows := CleanupView(ClaimUnreferenced(db, now, caller, batchId, keys).value, caller);
      var shown := rows - {ClaimRow("__letschat_cleanup_authorized__", 0, batchId)};
      && ClaimRow("__letschat_cleanup_authorized__", 0, batchId) in rows
      && (forall row :: row in rows ==> row.batchId == batchId)
      && (forall row :: row in shown ==> row.storageKey in keys && !Referenced(db.references, row.storageKey))
      && (forall k :: k in keys && !Referenced(db.references, k) ==>
            exists row :: row in rows && row.storageKey == k && row.claimedAt == ClaimTime(db, now, k))
      && (forall r, q :: r in shown && q in shown && r.storageKey == q.storageKey ==> r == q)
  {
    var t := ClaimUnreferenced(db, now, caller, batchId, keys).value;
    var rows := CleanupView(t, caller);
    forall k | k in keys && !Referenced(db.references, k)
      ensures exists row :: row in rows && row.storageKey == k && row.claimedAt == ClaimTime(db, now, k)
    {
      assert ClaimRow(k, t.claims[k].claimedAt, batchId) in rows;
    }
  }

  /** A tombstone keeps the time it was first set. */
  function ClaimTime(db: Db, now: Micros, key: string): Micros {
    if key in db.claims then db.claims[key].claimedAt else now
  }

  /** At no point of a run does the view show anyone a key that is referenced. */
  lemma ViewShowsNoReference(worlds: seq<World>, turns: seq<Turn>, n: nat, who: Identity, row: ClaimRow)
    requires IsRun(worlds, turns) && n < |worlds| && row in CleanupView(worlds[n].db, who)
    requires row.storageKey != "__letschat_cleanup_authorized__"
    ensures !Referenced(worlds[n].db.references, row.storageKey)
  {
    RunKeepsInv(worlds, turns, n);
  }
}
