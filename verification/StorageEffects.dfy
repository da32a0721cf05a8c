/** When the storage reducers go through, and what an accepted call leaves in the rows. */
module StorageEffects {
  import opened Wrappers
  import opened Text
  import opened ReferenceKeys
  import opened Attachments
  import opened Fence
  import opened StorageState
  import opened StorageCalls

  // ------------------------------------------------------------------ the fence

  /**
    A rebuild is for administrators. It goes through if the index is trusted
    already, if there is no fence, or if the fence is that of a restore at
    least ten minutes back; anything further ahead than 500 years is the fence
    of a fresh database.
  */
  lemma RebuildGoesThroughIff(db: Db, now: Micros, caller: Identity)
    requires Realistic(now)
    ensures Rebuild(db, now, caller).Ok? <==>
      && caller in db.users && db.users[caller].isAdmin
      && (|| db.ready == Some(true) || db.fence.None?
          || (db.fence.value <= now + 15_768_000_000_000_000 && db.fence.value <= now - 600_000_000))
    ensures Rebuild(db, now, caller).Ok? ==> IsReady(Rebuild(db, now, caller).value)
  {
  }

  /**
    A release lifts the fence of a fresh database, unless storage holds an
    object from before `init`, and then a rebuild can go through at once. It
    leaves every other fence alone.
  */
  lemma ReleaseLiftsInitFence(db: Db, past: Micros, now: Micros, caller: Identity, oldestObject: Option<Micros>)
    requires Realistic(past) && Realistic(now) && past <= now < past + 15_768_000_000_000_000
    requires db.fence == Some(past + 31_536_000_000_000_000) && IsAdmin(db, caller)
    ensures !IsReady(db) ==> Rebuild(db, now, caller) == Err(FreshlyInitialized)
    ensures
      if oldestObject.Some? && oldestObject.value < past
      then Release(db, now, caller, oldestObject) == Err(ObjectsPredateDatabase)
      else
        && Release(db, now, caller, oldestObject) == Ok(db.(fence := None))
        && Rebuild(Release(db, now, caller, oldestObject).value, now, caller).Ok?
  {
    FencesAreToldApart(past, now);
  }

  /** A restore withdraws the trust in the index and fences it for ten minutes, no longer and no shorter. */
  lemma RestoreFencesTenMinutes(db: Db, now: Micros, later: Micros, caller: Identity)
    requires Realistic(now) && Realistic(later) && now <= later && IsAdmin(db, caller)
    ensures SetFence(db, now).fence == Some(now)
    ensures if db.ready.Some? then SetFence(db, now).ready == Some(false) else SetFence(db, now).ready == None
    ensures Rebuild(SetFence(db, now), later, caller).Ok? <==> later - now >= 600_000_000
  {
    FencesAreToldApart(now, later);
  }

  // ------------------------------------------------------------------- claims

  /** A claim is for administrators, on a trusted index, under 32 hex digits and for at most 500 keys. */
  lemma ClaimGoesThroughIff(db: Db, now: Micros, caller: Identity, batchId: string, keys: seq<string>)
    ensures ClaimUnreferenced(db, now, caller, batchId, keys).Ok? <==>
      && caller in db.users && db.users[caller].isAdmin && db.ready == Some(true)
      && |keys| <= 500 && |batchId| == 32
      && (forall c :: c in batchId ==> c in "0123456789abcdefABCDEF")
  {
    HexDigits();
  }

  lemma HexDigits()
    ensures forall c :: IsHexDigit(c) <==> c in "0123456789abcdefABCDEF"
  {
    var digits := "0123456789abcdefABCDEF";
    forall c | IsHexDigit(c) ensures c in digits {
      var i := if c <= '9' then (c - '0') as int else if c <= 'F' then 16 + (c - 'A') as int else 10 + (c - 'a') as int;
      assert digits[i] == c;
    }
  }

  // -------------------------------------------------------------- what a row may list

  /** The key of an object the upload service made for this uploader and this channel or thread, or a legacy one. */
  ghost predicate MadeFor(key: string, scope: AttachmentScope, sender: string, partner: string) {
    exists s, folder, file ::
      && IsFolder(folder) && IsFile(file) && HasPlainNames(s) && key == Minted(s, folder, file)
      && (|| s == LegacyScope(sender)
          || (scope.InChannel? && s == ChannelScope(scope.channel, sender))
          || (scope.ToPartner? && s == DmScope(sender, partner)))
  }

  lemma FitsIffMadeFor(key: string, scope: AttachmentScope, sender: string, partner: string)
    ensures FitsMessage(key, scope, sender, partner) <==> MadeFor(key, scope, sender, partner)
  {
    var own := if scope.InChannel? then ChannelScope(scope.channel, sender) else DmScope(sender, partner);
    AdmittedIffMinted(LegacyScope(sender), key);
    AdmittedIffMinted(own, key);
    assert FitsMessage(key, scope, sender, partner) <==> Admits(LegacyScope(sender), key) || Admits(own, key);
  }

  /**
    What a message may carry: sound metadata whose keys nobody has claimed and
    that were made for its sender and its channel or thread.
  */
  ghost predicate MayCarry(db: Db, content: string, sender: Identity, scope: AttachmentScope) {
    && Keys(db.decode, content).Ok? && sender in db.users && (scope.ToPartner? ==> scope.partner in db.users)
    && forall k :: k in Keys(db.decode, content).value ==>
         && k !in db.claims
         && MadeFor(k, scope, db.users[sender].username,
                    if scope.ToPartner? then db.users[scope.partner].username else "")
  }

  lemma SyncGoesThroughIff(db: Db, o: Owner, content: string, sender: Identity, scope: AttachmentScope)
    ensures SyncMessage(db, o, content, sender, scope).Ok? <==> MayCarry(db, content, sender, scope)
    ensures SyncMessage(db, o, content, sender, scope).Ok? ==>
      var t := SyncMessage(db, o, content, sender, scope).value;
      t == db.(references := t.references)
  {
    if Keys(db.decode, content).Ok? && sender in db.users && (scope.ToPartner? ==> scope.partner in db.users) {
      var senderName := db.users[sender].username;
      var partnerName := if scope.ToPartner? then db.users[scope.partner].username else "";
      forall k ensures FitsMessage(k, scope, senderName, partnerName) <==> MadeFor(k, scope, senderName, partnerName) {
        FitsIffMadeFor(k, scope, senderName, partnerName);
      }
    }
  }

  /** The row of `o` lists exactly `keys`, and every other row lists what it did. */
  ghost predicate NowLists(db: Db, t: Db, o: Owner, keys: seq<string>) {
    && (forall k :: Lists(t, o, k) <==> k in keys)
    && (forall p, k :: p != o ==> (Lists(t, p, k) <==> Lists(db, p, k)))
  }

  // ------------------------------------------------------------------------ messages

  lemma SendMeans(db: Db, now: Micros, id: nat, channel: nat, sender: Identity, content: string)
    requires Realistic(now)
    ensures
      var r := Perform(db, now, SendMessage(id, channel, sender, content));
      && (r.Ok? <==> id !in db.messages && MayCarry(db, content, sender, InChannel(channel)))
      && (r.Ok? ==>
            && r.value.messages == db.messages[id := Message(channel, sender, content, false)]
            && NowLists(db, r.value, MessageOwner(id), Keys(db.decode, content).value))
  {
    var inserted := db.(messages := db.messages[id := Message(channel, sender, content, false)]);
    SyncGoesThroughIff(inserted, MessageOwner(id), content, sender, InChannel(channel));
    assert MayCarry(inserted, content, sender, InChannel(channel)) <==>
      MayCarry(db, content, sender, InChannel(channel));
  }

  /** Only the sender edits a message, and only while it is not deleted. */
  lemma EditMeans(db: Db, now: Micros, id: nat, sender: Identity, content: string)
    requires Realistic(now)
    ensures
      var r := Perform(db, now, EditMessage(id, sender, content));
      && (r.Ok? <==>
            && id in db.messages && db.messages[id].sender == sender && !db.messages[id].deleted
            && MayCarry(db, content, sender, InChannel(db.messages[id].channel)))
      && (r.Ok? ==>
            && r.value.messages == db.messages[id := Message(db.messages[id].channel, sender, content, false)]
            && NowLists(db, r.value, MessageOwner(id), Keys(db.decode, content).value))
  {
    if id in db.messages {
      SyncGoesThroughIff(db, MessageOwner(id), content, sender, InChannel(db.messages[id].channel));
    }
  }

  /** A deleted message stays as a row without its text, and lists nothing. */
  lemma DeleteMeans(db: Db, now: Micros, id: nat)
    requires Realistic(now)
    ensures
      var r := Perform(db, now, DeleteMessage(id));
      && (r.Ok? <==> id in db.messages)
      && (r.Ok? ==>
            && r.value.messages ==
               db.messages[id := Message(db.messages[id].channel, db.messages[id].sender, "[message deleted]", true)]
            && NowLists(db, r.value, MessageOwner(id), [])
            && forall k :: Reference(MessageOwner(id), k) !in r.value.references)
  {
  }

  /** Deleting a channel removes its messages and no others. */
  lemma DeleteChannelMeans(db: Db, now: Micros, channel: nat, o: Owner, key: string)
    requires Realistic(now)
    ensures
      var r := Perform(db, now, DeleteChannel(channel));
      && r.Ok?
      && (forall id :: id in r.value.messages <==> id in db.messages && db.messages[id].channel != channel)
      && (forall id :: id in r.value.messages ==> r.value.messages[id] == db.messages[id])
      && (Lists(r.value, o, key) <==>
            Lists(db, o, key) && !(o.MessageOwner? && o.id in db.messages && db.messages[o.id].channel == channel))
  {
  }

  lemma SendDirectMeans(db: Db, now: Micros, id: nat, sender: Identity, recipient: Identity, content: string)
    requires Realistic(now)
    ensures
      var r := Perform(db, now, SendDirectMessage(id, sender, recipient, content));
      && (r.Ok? <==> id !in db.directMessages && MayCarry(db, content, sender, ToPartner(recipient)))
      && (r.Ok? ==>
            && r.value.directMessages ==
               db.directMessages[id := DirectMessage(sender, recipient, content, false, false)]
            && NowLists(db, r.value, DmOwner(id), Keys(db.decode, content).value))
  {
    var inserted :=
      db.(directMessages := db.directMessages[id := DirectMessage(sender, recipient, content, false, false)]);
    SyncGoesThroughIff(inserted, DmOwner(id), content, sender, ToPartner(recipient));
    assert MayCarry(inserted, content, sender, ToPartner(recipient)) <==>
      MayCarry(db, content, sender, ToPartner(recipient));
  }

  lemma EditDirectMeans(db: Db, now: Micros, id: nat, sender: Identity, content: string)
    requires Realistic(now)
    ensures
      var r := Perform(db, now, EditDirectMessage(id, sender, content));
      && (r.Ok? <==>
            && id in db.directMessages && db.directMessages[id].sender == sender
            && MayCarry(db, content, sender, ToPartner(db.directMessages[id].recipient)))
      && (r.Ok? ==>
            && r.value.directMessages == db.directMessages[id := db.directMessages[id].(content := content)]
            && NowLists(db, r.value, DmOwner(id), Keys(db.decode, content).value))
  {
    if id in db.directMessages {
      SyncGoesThroughIff(db, DmOwner(id), content, sender, ToPartner(db.directMessages[id].recipient));
    }
  }

  /** A direct message keeps its files for the other side; the second of the two deletions removes it. */
  lemma DeleteDirectMeans(db: Db, now: Micros, id: nat, a: Identity, b: Identity)
    requires Realistic(now) && id in db.directMessages && a != b
    requires {a, b} == {db.directMessages[id].sender, db.directMessages[id].recipient}
    requires !db.directMessages[id].deletedBySender && !db.directMessages[id].deletedByRecipient
    ensures
      var first := Perform(db, now, DeleteDirectMessage(id, a));
      && first.Ok? && (forall o, k :: Lists(first.value, o, k) <==> Lists(db, o, k))
      && Perform(first.value, now, DeleteDirectMessage(id, a)) == first
      && Perform(first.value, now, DeleteDirectMessage(id, b)).Ok?
      && var second := Perform(first.value, now, DeleteDirectMessage(id, b)).value;
         && second.directMessages == db.directMessages - {id}
         && forall k :: Reference(DmOwner(id), k) !in second.references
  {
    var m := db.directMessages[id];
    assert a in {m.sender, m.recipient} && b in {m.sender, m.recipient};
    assert m.sender in {a, b} && m.recipient in {a, b};
    var t := PerformDeleteDirect(db, id, a).value;
    assert t.directMessages[id := t.directMessages[id]] == t.directMessages;
    assert t.directMessages - {id} == db.directMessages - {id};
  }

  /** The two deletions are two flags: a direct message to oneself is never removed. */
  lemma NoteToSelfStays(db: Db, now: Micros, id: nat, caller: Identity)
    requires Realistic(now) && id in db.directMessages && !db.directMessages[id].deletedByRecipient
    requires db.directMessages[id].sender == db.directMessages[id].recipient
    ensures
      var r := Perform(db, now, DeleteDirectMessage(id, caller));
      r.Ok? ==> id in r.value.directMessages && !r.value.directMessages[id].deletedByRecipient
  {
  }

  lemma StrangerDeletesNothing(db: Db, now: Micros, id: nat, caller: Identity)
    requires Realistic(now)
    requires id in db.directMessages ==>
      caller != db.directMessages[id].sender && caller != db.directMessages[id].recipient
    ensures Perform(db, now, DeleteDirectMessage(id, caller)).Err?
  {
  }

  // ----------------------------------------------------------------- profiles and icons

  /** The key of an avatar the upload service made for this user. */
  ghost predicate MadeAsAvatar(key: string, username: string) {
    SlashFree(username) && exists file :: IsFile(file) && key == "uploads/avatar/" + username + "/" + file
  }

  ghost predicate MadeAsIcon(key: string, server: nat, uploader: string) {
    SlashFree(uploader)
    && exists file :: IsFile(file) && key == "uploads/icon/" + Decimal(server) + "/" + uploader + "/" + file
  }

  lemma AvatarIffMade(key: string, username: string)
    ensures IsAvatarKey(key, username) <==> MadeAsAvatar(key, username)
  {
    AdmittedIffMinted(AvatarScope(username), key);
    assert IsAvatarKey(key, username) == Admits(AvatarScope(username), key);
    if MadeAsAvatar(key, username) {
      var file :| IsFile(file) && key == "uploads/avatar/" + username + "/" + file;
      assert key == Minted(AvatarScope(username), Folder("0000", "", ""), file);
      assert IsFolder(Folder("0000", "", ""));
    }
  }

  lemma IconIffMade(key: string, server: nat, uploader: string)
    ensures IsIconKey(key, server, uploader) <==> MadeAsIcon(key, server, uploader)
  {
    AdmittedIffMinted(IconScope(server, uploader), key);
    assert IsIconKey(key, server, uploader) == Admits(IconScope(server, uploader), key);
    if MadeAsIcon(key, server, uploader) {
      var file :| IsFile(file) && key == "uploads/icon/" + Decimal(server) + "/" + uploader + "/" + file;
      assert key == Minted(IconScope(server, uploader), Folder("0000", "", ""), file);
      assert IsFolder(Folder("0000", "", ""));
    }
  }

  /** A profile update that changes the avatar goes through for no avatar at all or for an unclaimed key made for it. */
  lemma ProfileMeans(db: Db, now: Micros, caller: Identity, url: string)
    requires Names(db) && Realistic(now) && caller in db.users && db.users[caller].avatarUrl != Some(url)
    ensures
      var name := db.users[caller].username;
      var r := Perform(db, now, UpdateProfile(caller, Some(url)));
      && (r.Ok? <==> url == "" || (MadeAsAvatar(url, name) && url !in db.claims))
      && (r.Ok? ==>
            && r.value.users == db.users[caller := db.users[caller].(avatarUrl := Some(url))]
            && NowLists(db, r.value, AvatarOwner(name), if url == "" then [] else [url]))
  {
    var name := db.users[caller].username;
    AvatarIffMade(url, name);
    if url == "" || (MadeAsAvatar(url, name) && url !in db.claims) {
      var t := Perform(db, now, UpdateProfile(caller, Some(url))).value;
      AvatarListsChange(db, t, caller, Some(url));
      if url == "" {
        assert !IsUpload("");
      } else {
        AdmittedKeyIsUpload(url, AvatarScope(name));
      }
    }
  }

  /** A profile update without an avatar, or with the one already set, changes no listed object. */
  lemma SameProfile(db: Db, now: Micros, caller: Identity)
    requires Realistic(now) && caller in db.users
    ensures Perform(db, now, UpdateProfile(caller, None)) == Ok(db)
    ensures Perform(db, now, UpdateProfile(caller, db.users[caller].avatarUrl)) == Ok(db)
  {
  }

  /** An icon is trimmed; an empty one removes it, and any other must be an unclaimed key made for this space. */
  lemma IconMeans(db: Db, now: Micros, id: nat, caller: Identity, url: string)
    requires Realistic(now) && id in db.servers && caller in db.users
    requires url == Trim(url) && db.servers[id].iconUrl != (if url == "" then None else Some(url))
    ensures
      var r := Perform(db, now, SetServerIcon(id, caller, Some(url)));
      && (r.Ok? <==> url == "" || (MadeAsIcon(url, id, db.users[caller].username) && url !in db.claims))
      && (r.Ok? ==>
            && r.value.servers == db.servers[id := Server(if url == "" then None else Some(url))]
            && NowLists(db, r.value, IconOwner(id), if url == "" then [] else [url]))
  {
    IconIffMade(url, id, db.users[caller].username);
    if url != "" && MadeAsIcon(url, id, db.users[caller].username) {
      AdmittedKeyIsUpload(url, IconScope(id, db.users[caller].username));
    }
  }

  /** Deleting a space removes its row and the reference of its icon. */
  lemma DeleteServerMeans(db: Db, now: Micros, id: nat)
    requires Realistic(now)
    ensures
      var r := Perform(db, now, DeleteServer(id));
      && r.Ok? && r.value.servers == db.servers - {id} && NowLists(db, r.value, IconOwner(id), [])
      && forall k :: Reference(IconOwner(id), k) !in r.value.references
  {
  }

  // ------------------------------------------------------------------- accounts

  /** A registration takes a free, valid name for a new account; only a parked grant makes it an administrator. */
  lemma RegisterMeans(db: Db, now: Micros, caller: Identity, username: string, granted: bool)
    requires Realistic(now)
    ensures
      var r := Perform(db, now, RegisterUser(caller, username, granted));
      && (r.Ok? <==>
            && caller !in db.users && (forall u :: u in db.users ==> db.users[u].username != username)
            && 2 <= |username| <= 32 && (forall c :: c in username ==> IsWordChar(c)))
      && (r.Ok? ==> r.value == db.(users := db.users[caller := User(username, None, granted)]))
  {
  }

  /** Granting or withdrawing administration changes that one flag of an account there is. */
  lemma SetAdminMeans(db: Db, now: Micros, user: Identity, isAdmin: bool)
    requires Realistic(now)
    ensures
      var r := Perform(db, now, SetAdmin(user, isAdmin));
      && (r.Ok? <==> user in db.users)
      && (r.Ok? ==>
            && IsAdmin(r.value, user) == isAdmin && r.value.users.Keys == db.users.Keys
            && (forall u :: u in db.users && u != user ==> r.value.users[u] == db.users[u])
            && forall o, k :: Lists(r.value, o, k) <==> Lists(db, o, k))
  {
    if user in db.users {
      var t := Perform(db, now, SetAdmin(user, isAdmin)).value;
      assert forall u :: u in db.users ==>
        t.users[u].username == db.users[u].username && t.users[u].avatarUrl == db.users[u].avatarUrl;
    }
  }

  // ------------------------------------------------------------------- restored rows

  /** A restored row is referenced by its readable, unclaimed keys and nothing else. */
  lemma RestoredRowIsReferenced(db: Db, o: Owner, content: string, url: Option<string>, p: Owner, key: string)
    ensures Reference(p, key) in RestoreMessage(db, o, content).references <==>
      if p == o then Keys(db.decode, content).Ok? && key in Keys(db.decode, content).value && key !in db.claims
      else Reference(p, key) in db.references
    ensures Reference(p, key) in RestoreSingle(db, o, url).references <==>
      if p == o then url == Some(key) && "uploads/" <= key && !Contains(key, "..") && key !in db.claims
      else Reference(p, key) in db.references
  {
  }

  /** A batch of message rows puts each row, the last one of an id winning, and touches no other. */
  lemma {:induction false} RestoredMessagesMean(db: Db, rows: seq<(nat, Message)>, id: nat)
    ensures
      var t := RestoredMessages(db, rows);
      && (id in t.messages <==> id in db.messages || exists i :: 0 <= i < |rows| && rows[i].0 == id)
      && (forall i :: 0 <= i < |rows| && rows[i].0 == id && (forall j :: i < j < |rows| ==> rows[j].0 != id) ==>
            id in t.messages && t.messages[id] == rows[i].1)
      && ((forall i :: 0 <= i < |rows| ==> rows[i].0 != id) && id in db.messages ==> t.messages[id] == db.messages[id])
    decreases |rows|
  {
    if rows != [] {
      var s := RestoreMessage(db, MessageOwner(rows[0].0), rows[0].1.content);
      var next := s.(messages := s.messages[rows[0].0 := rows[0].1]);
      var rest := rows[1..];
      RestoredMessagesMean(next, rest, id);
      assert forall i :: 0 < i < |rows| ==> rest[i - 1] == rows[i];
      assert forall i :: 0 <= i < |rest| ==> rows[i + 1] == rest[i];
    }
  }

  /** Of the rows with this key the last one counts. */
  ghost predicate LastAt<K, V>(rows: seq<(K, V)>, i: int, key: K) {
    0 <= i < |rows| && rows[i].0 == key && forall j :: i < j < |rows| ==> rows[j].0 != key
  }

  lemma LastIsDeeper<K, V>(rows: seq<(K, V)>, key: K)
    requires rows != []
    ensures forall i :: LastAt(rows, i, key) && i > 0 ==> LastAt(rows[1..], i - 1, key)
    ensures LastAt(rows, 0, key) ==> forall i :: 0 <= i < |rows[1..]| ==> rows[1..][i].0 != key
  {
    assert forall i :: 0 < i < |rows| ==> rows[1..][i - 1] == rows[i];
  }

  lemma {:induction false} RestoredDirectMessagesMean(db: Db, rows: seq<(nat, DirectMessage)>, id: nat)
    ensures
      var t := RestoredDirectMessages(db, rows);
      && (forall i :: LastAt(rows, i, id) ==> id in t.directMessages && t.directMessages[id] == rows[i].1)
      && ((forall i :: 0 <= i < |rows| ==> rows[i].0 != id) && id in db.directMessages ==>
            id in t.directMessages && t.directMessages[id] == db.directMessages[id])
    decreases |rows|
  {
    if rows != [] {
      var s := RestoreMessage(db, DmOwner(rows[0].0), rows[0].1.content);
      LastIsDeeper(rows, id);
      RestoredDirectMessagesMean(s.(directMessages := s.directMessages[rows[0].0 := rows[0].1]), rows[1..], id);
    }
  }

  lemma {:induction false} RestoredServersMean(db: Db, rows: seq<(nat, Server)>, id: nat)
    ensures
      var t := RestoredServers(db, rows);
      && (forall i :: LastAt(rows, i, id) ==> id in t.servers && t.servers[id] == rows[i].1)
      && ((forall i :: 0 <= i < |rows| ==> rows[i].0 != id) && id in db.servers ==>
            id in t.servers && t.servers[id] == db.servers[id])
    decreases |rows|
  {
    if rows != [] {
      var s := RestoreSingle(db, IconOwner(rows[0].0), rows[0].1.iconUrl);
      LastIsDeeper(rows, id);
      RestoredServersMean(s.(servers := s.servers[rows[0].0 := rows[0].1]), rows[1..], id);
    }
  }

  /** A batch of accounts is put as a whole or, if it would give two accounts one name, not at all. */
  lemma {:induction false} RestoredUsersMean(db: Db, rows: seq<(Identity, User)>, id: Identity)
    requires RestoredUsers(db, rows).Ok?
    ensures
      var t := RestoredUsers(db, rows).value;
      && (forall i :: LastAt(rows, i, id) ==> id in t.users && t.users[id] == rows[i].1)
      && ((forall i :: 0 <= i < |rows| ==> rows[i].0 != id) && id in db.users ==>
            id in t.users && t.users[id] == db.users[id])
    decreases |rows|
  {
    if rows != [] {
      var s := RestoreSingle(db, AvatarOwner(rows[0].1.username), rows[0].1.avatarUrl);
      LastIsDeeper(rows, id);
      RestoredUsersMean(s.(users := s.users[rows[0].0 := rows[0].1]), rows[1..], id);
    }
  }

  /** A batch whose names are distinct and free goes through. */
  lemma {:induction false} DistinctUsersAreRestored(db: Db, rows: seq<(Identity, User)>)
    requires forall i, j :: 0 <= i < j < |rows| ==> rows[i].1.username != rows[j].1.username
    requires forall i, u :: 0 <= i < |rows| && u in db.users && db.users[u].username == rows[i].1.username ==>
      u == rows[i].0
    ensures RestoredUsers(db, rows).Ok?
    decreases |rows|
  {
    if rows != [] {
      var s := RestoreSingle(db, AvatarOwner(rows[0].1.username), rows[0].1.avatarUrl);
      var next := s.(users := s.users[rows[0].0 := rows[0].1]);
      var rest := rows[1..];
      forall i, u | 0 <= i < |rest| && u in next.users && next.users[u].username == rest[i].1.username
        ensures u == rest[i].0
      {
        assert rest[i] == rows[i + 1];
        assert rows[0].1.username != rows[i + 1].1.username;
      }
      DistinctUsersAreRestored(next, rest);
    }
  }
}
