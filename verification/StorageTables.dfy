/**
  The reference protocol on the module's tables, with the loops of its reducers.
  The reference table is keyed by the reference key string; every insert is
  proved to hit no existing row.
*/
module StorageTables {
  import opened Wrappers
  import opened ReferenceKeys
  import opened Attachments
  import opened Fence
  import opened StorageState

  datatype Row = Row(ownerKey: string, storageKey: string)

  ghost function KeyOf(r: Reference): string {
    ReferenceKey(OwnerKey(r.owner), r.storageKey)
  }

  ghost predicate HasRow(table: map<string, Row>, r: Reference) {
    KeyOf(r) in table && table[KeyOf(r)] == Row(OwnerKey(r.owner), r.storageKey)
  }

  ghost predicate StandsFor(references: set<Reference>, key: string) {
    exists r :: r in references && KeyOf(r) == key
  }

  /** The table holds exactly the rows of `references`, each under its reference key. */
  ghost predicate Represents(table: map<string, Row>, references: set<Reference>) {
    && (forall r :: r in references ==> IsOwner(r.owner) && HasRow(table, r))
    && (forall key :: key in table ==> StandsFor(references, key))
  }

  function RowsWithout(table: map<string, Row>, ownerKey: string): map<string, Row> {
    map key | key in table && table[key].ownerKey != ownerKey :: table[key]
  }

  /** Dropping an owner's rows by the owner key string drops that owner's references and no other's. */
  lemma RemovedRows(table: map<string, Row>, references: set<Reference>, o: Owner)
    requires Represents(table, references) && IsOwner(o)
    ensures Represents(RowsWithout(table, OwnerKey(o)), WithoutOwner(references, o))
  {
    var left := RowsWithout(table, OwnerKey(o));
    forall r | r in WithoutOwner(references, o) ensures IsOwner(r.owner) && HasRow(left, r) {
      assert HasRow(table, r);
      OwnerKeysDiffer(r.owner, o);
    }
    forall key | key in left ensures StandsFor(WithoutOwner(references, o), key) {
      assert StandsFor(references, key);
      var r :| r in references && KeyOf(r) == key;
      assert HasRow(table, r);
      assert r in WithoutOwner(references, o);
    }
  }

  lemma OwnerKeysDiffer(o: Owner, p: Owner)
    requires IsOwner(o) && IsOwner(p) && o != p
    ensures OwnerKey(o) != OwnerKey(p)
  {
    if OwnerKey(o) == OwnerKey(p) {
      OwnerKeyIsInjective(o, p);
    }
  }

  /** A reference that is not there yet has a free primary key. */
  lemma KeyIsFree(table: map<string, Row>, references: set<Reference>, r: Reference)
    requires Represents(table, references) && IsOwner(r.owner) && r !in references
    ensures KeyOf(r) !in table
  {
    if KeyOf(r) in table {
      assert StandsFor(references, KeyOf(r));
      var q :| q in references && KeyOf(q) == KeyOf(r);
      ReferenceKeyIsInjective(q.owner, q.storageKey, r.owner, r.storageKey);
    }
  }

  lemma AddedRow(table: map<string, Row>, references: set<Reference>, r: Reference)
    requires Represents(table, references) && IsOwner(r.owner) && KeyOf(r) !in table
    ensures Represents(table[KeyOf(r) := Row(OwnerKey(r.owner), r.storageKey)], references + {r})
  {
    var table' := table[KeyOf(r) := Row(OwnerKey(r.owner), r.storageKey)];
    forall q | q in references + {r} ensures IsOwner(q.owner) && HasRow(table', q) {
      assert q != r ==> HasRow(table, q) && KeyOf(q) != KeyOf(r);
    }
    forall key | key in table' ensures StandsFor(references + {r}, key) {
      if key != KeyOf(r) {
        assert StandsFor(references, key);
        var q :| q in references && KeyOf(q) == key;
        assert q in references + {r};
      } else {
        assert r in references + {r};
      }
    }
  }

  lemma ReplacedStep(references: set<Reference>, o: Owner, keys: seq<string>, n: nat)
    requires NoDuplicates(keys) && n < |keys|
    ensures Reference(o, keys[n]) !in Replaced(references, o, keys[..n])
    ensures Replaced(references, o, keys[..n + 1]) ==
      Replaced(references, o, keys[..n]) + {Reference(o, keys[n])}
  {
    assert keys[..n + 1] == keys[..n] + [keys[n]];
  }

  /** A call did what its specification says; a refused one left every table as it was. */
  ghost predicate Carried(spec: Result<Db, Error>, r: Result<(), Error>, before: Db, after: Db) {
    match spec
    case Ok(db) => r.Ok? && after == db
    case Err(e) => r == Err(e) && after == before
  }

  class StorageModule {
    const decode: Decoder
    var messages: map<nat, Message>
    var directMessages: map<nat, DirectMessage>
    var users: map<Identity, User>
    var servers: map<nat, Server>
    var storageReference: map<string, Row>
    var ready: Option<bool>
    var fence: Option<FenceTime>
    var claims: map<string, Claim>
    var batches: map<Identity, string>
    ghost var references: set<Reference>

    ghost function View(): Db
      reads this
    {
      Db(decode, messages, directMessages, users, servers, references, ready, fence, claims, batches)
    }

    /** User names are unique and well-formed, and the string table stands for `references`. */
    ghost predicate Valid()
      reads this
    {
      && Represents(storageReference, references)
      && (forall u :: u in users ==> IsAccountName(users[u].username))
      && (forall u, v :: u in users && v in users && users[u].username == users[v].username ==> u == v)
    }

    constructor (decode: Decoder)
      ensures Valid() && View() == Db(decode, map[], map[], map[], map[], {}, None, None, map[], map[])
    {
      this.decode := decode;
      messages, directMessages, users, servers := map[], map[], map[], map[];
      storageReference, references := map[], {};
      ready, fence, claims, batches := None, None, map[], map[];
    }

    /** Deletes the rows under the given primary keys, one at a time. */
    method DeleteRows(keys: set<string>)
      modifies this`storageReference
      ensures storageReference == old(storageReference) - keys
    {
      var left := keys;
      while left != {}
        modifies this`storageReference
        invariant left <= keys
        invariant storageReference == old(storageReference) - (keys - left)
        decreases left
      {
        var key :| key in left;
        left := left - {key};
        storageReference := storageReference - {key};
        assert keys - left == (keys - (left + {key})) + {key};
      }
      assert keys - left == keys;
    }

    method RemoveReferences(o: Owner)
      requires Valid() && IsOwner(o)
      modifies this`storageReference, this`references
      ensures Valid() && references == WithoutOwner(old(references), o)
    {
      var ownerKey := OwnerKey(o);
      RemovedRows(storageReference, references, o);
      DeleteRows(set key | key in storageReference && storageReference[key].ownerKey == ownerKey);
      references := WithoutOwner(references, o);
      assert storageReference == RowsWithout(old(storageReference), ownerKey);
    }

    /** An insert into the table; a taken primary key would abort the reducer. */
    method InsertReference(o: Owner, storageKey: string)
      requires Valid() && IsOwner(o)
      requires ReferenceKey(OwnerKey(o), storageKey) !in storageReference
      modifies this`storageReference, this`references
      ensures Valid() && references == old(references) + {Reference(o, storageKey)}
    {
      AddedRow(storageReference, references, Reference(o, storageKey));
      var ownerKey := OwnerKey(o);
      storageReference := storageReference[ReferenceKey(ownerKey, storageKey) := Row(ownerKey, storageKey)];
      references := references + {Reference(o, storageKey)};
    }

    method ReplaceReferences(o: Owner, storageKeys: seq<string>)
      requires Valid() && IsOwner(o) && NoDuplicates(storageKeys)
      modifies this`storageReference, this`references
      ensures Valid() && references == Replaced(old(references), o, storageKeys)
    {
      RemoveReferences(o);
      for n := 0 to |storageKeys|
        modifies this`storageReference, this`references
        invariant Valid()
        invariant references == Replaced(old(references), o, storageKeys[..n])
      {
        ReplacedStep(old(references), o, storageKeys, n);
        KeyIsFree(storageReference, references, Reference(o, storageKeys[n]));
        InsertReference(o, storageKeys[n]);
      }
      assert storageKeys[..|storageKeys|] == storageKeys;
    }

    method UnclaimedKeys(keys: seq<string>) returns (r: seq<string>)
      ensures r == Unclaimed(claims, keys)
    {
      r := [];
      for n := 0 to |keys|
        invariant r == Unclaimed(claims, keys[..n])
      {
        assert keys[..n + 1][..n] == keys[..n];
        if keys[n] !in claims {
          r := r + [keys[n]];
        }
      }
      assert keys[..|keys|] == keys;
    }

    method SyncMessageReferences(o: Owner, content: string, sender: Identity, scope: AttachmentScope)
      returns (r: Result<(), Error>)
      requires Valid() && IsOwner(o)
      modifies this`storageReference, this`references
      ensures Valid() && Carried(SyncMessage(old(View()), o, content, sender, scope), r, old(View()), View())
    {
      var parsed := AttachmentKeys(decode, content);
      if parsed.Err? {
        return Err(parsed.error);
      }
      var keys := parsed.value;
      if sender !in users {
        return Err(UnknownAccount);
      }
      var senderName, partnerName := users[sender].username, "";
      if scope.ToPartner? {
        if scope.partner !in users {
          return Err(UnknownAccount);
        }
        partnerName := users[scope.partner].username;
      }
      for n := 0 to |keys|
        invariant Refusal(claims, keys, scope, senderName, partnerName) ==
                  Refusal(claims, keys[n..], scope, senderName, partnerName)
      {
        assert keys[n..][1..] == keys[n + 1..];
        if keys[n] in claims {
          return Err(Expired);
        }
        var valid := match scope
          case InChannel(channel) => IsChannelKey(keys[n], channel, senderName) || IsLegacyKey(keys[n], senderName)
          case ToPartner(_) => IsDmKey(keys[n], senderName, partnerName) || IsLegacyKey(keys[n], senderName);
        if !valid {
          return Err(WrongMessageKey);
        }
      }
      ReplaceReferences(o, keys);
      return Ok(());
    }

    method SyncAvatarReference(username: string, url: Option<string>) returns (r: Result<(), Error>)
      requires Valid() && IsAccountName(username)
      modifies this`storageReference, this`references
      ensures Valid() && Carried(SyncAvatar(old(View()), username, url), r, old(View()), View())
    {
      var keys: seq<string> := [];
      if url.Some? && url.value != "" {
        if !IsAvatarKey(url.value, username) {
          return Err(WrongAvatarKey);
        }
        if url.value in claims {
          return Err(Expired);
        }
        keys := [url.value];
      }
      ReplaceReferences(AvatarOwner(username), keys);
      return Ok(());
    }

    method SyncIconReference(server: nat, uploader: string, url: Option<string>) returns (r: Result<(), Error>)
      requires Valid()
      modifies this`storageReference, this`references
      ensures Valid() && Carried(SyncIcon(old(View()), server, uploader, url), r, old(View()), View())
    {
      var keys: seq<string> := [];
      if url.Some? && url.value != "" {
        if !IsIconKey(url.value, server, uploader) {
          return Err(WrongIconKey);
        }
        if url.value in claims {
          return Err(Expired);
        }
        keys := [url.value];
      }
      ReplaceReferences(IconOwner(server), keys);
      return Ok(());
    }

    method RestoreMessageReferences(o: Owner, content: string)
      requires Valid() && IsOwner(o)
      modifies this`storageReference, this`references
      ensures Valid() && View() == RestoreMessage(old(View()), o, content)
    {
      var parsed := AttachmentKeys(decode, content);
      var keys := UnclaimedKeys(if parsed.Ok? then parsed.value else []);
      ReplaceReferences(o, keys);
    }

    method RestoreSingleReference(o: Owner, url: Option<string>)
      requires Valid() && IsOwner(o)
      modifies this`storageReference, this`references
      ensures Valid() && View() == RestoreSingle(old(View()), o, url)
    {
      var keys := UnclaimedKeys(RestoredKeys(url));
      ReplaceReferences(o, keys);
    }

    method SetRestoreFence(lastRestoreAt: FenceTime)
      requires Valid()
      modifies this`ready, this`fence
      ensures Valid() && View() == SetFence(old(View()), lastRestoreAt)
    {
      if ready.Some? {
        ready := Some(false);
      }
      fence := Some(lastRestoreAt);
    }

    method DeleteAllReferences()
      requires Valid()
      modifies this`storageReference, this`references
      ensures Valid() && View() == old(View()).(references := {})
    {
      DeleteRows(storageReference.Keys);
      references := {};
      assert storageReference == map[];
    }

    /** The four loops of the rebuild. Each adds the references of one table's rows, in any order. */
    method RebuildMessages()
      requires Valid() && forall r :: r in references ==> !r.owner.MessageOwner?
      modifies this`storageReference, this`references
      ensures Valid()
      ensures references == old(references) + MessageReferences(old(View()), messages.Keys)
    {
      ghost var before := View();
      var left, done := messages.Keys, {};
      while left != {}
        modifies this`storageReference, this`references
        invariant Valid() && left !! done && left + done == messages.Keys
        invariant references == before.references + MessageReferences(before, done)
        decreases left
      {
        var id :| id in left;
        left := left - {id};
        MessageAdded(before, done, id);
        if !messages[id].deleted {
          RestoreMessageReferences(MessageOwner(id), messages[id].content);
        }
        done := done + {id};
      }
      assert done == messages.Keys;
    }

    method RebuildDirectMessages()
      requires Valid() && forall r :: r in references ==> !r.owner.DmOwner?
      modifies this`storageReference, this`references
      ensures Valid()
      ensures references == old(references) + DirectMessageReferences(old(View()), directMessages.Keys)
    {
      ghost var before := View();
      var left, done := directMessages.Keys, {};
      while left != {}
        modifies this`storageReference, this`references
        invariant Valid() && left !! done && left + done == directMessages.Keys
        invariant references == before.references + DirectMessageReferences(before, done)
        decreases left
      {
        var id :| id in left;
        left := left - {id};
        DirectMessageAdded(before, done, id);
        RestoreMessageReferences(DmOwner(id), directMessages[id].content);
        done := done + {id};
      }
      assert done == directMessages.Keys;
    }

    method RebuildAvatars()
      requires Valid() && forall r :: r in references ==> !r.owner.AvatarOwner?
      modifies this`storageReference, this`references
      ensures Valid()
      ensures references == old(references) + AvatarReferences(old(View()), users.Keys)
    {
      ghost var before := View();
      var left, done := users.Keys, {};
      while left != {}
        modifies this`storageReference, this`references
        invariant Valid() && left !! done && left + done == users.Keys
        invariant references == before.references + AvatarReferences(before, done)
        decreases left
      {
        var u :| u in left;
        left := left - {u};
        assert forall v :: v in done ==> before.users[v].username != before.users[u].username;
        AvatarAdded(before, done, u);
        RestoreSingleReference(AvatarOwner(users[u].username), users[u].avatarUrl);
        done := done + {u};
      }
      assert done == users.Keys;
    }

    method RebuildIcons()
      requires Valid() && forall r :: r in references ==> !r.owner.IconOwner?
      modifies this`storageReference, this`references
      ensures Valid()
      ensures references == old(references) + IconReferences(old(View()), servers.Keys)
    {
      ghost var before := View();
      var left, done := servers.Keys, {};
      while left != {}
        modifies this`storageReference, this`references
        invariant Valid() && left !! done && left + done == servers.Keys
        invariant references == before.references + IconReferences(before, done)
        decreases left
      {
        var id :| id in left;
        left := left - {id};
        IconAdded(before, done, id);
        RestoreSingleReference(IconOwner(id), servers[id].iconUrl);
        done := done + {id};
      }
      assert done == servers.Keys;
    }

    method RebuildAllReferences()
      requires Valid()
      modifies this`storageReference, this`references
      ensures Valid() && references == Rebuilt(old(View()))
    {
      ghost var before := View();
      ghost var ms := MessageReferences(before, messages.Keys);
      ghost var ds := DirectMessageReferences(before, directMessages.Keys);
      ghost var avatars := AvatarReferences(before, users.Keys);
      DeleteAllReferences();
      SameRows(before, references);
      RebuildMessages();
      assert references == ms;
      SameRows(before, references);
      RebuildDirectMessages();
      assert references == ms + ds;
      SameRows(before, references);
      RebuildAvatars();
      assert references == ms + ds + avatars;
      SameRows(before, references);
      RebuildIcons();
    }

    method RebuildStorageReferences(now: Micros, caller: Identity) returns (r: Result<(), Error>)
      requires Valid() && Realistic(now)
      modifies this`storageReference, this`references, this`ready
      ensures Valid() && Carried(Rebuild(old(View()), now, caller), r, old(View()), View())
    {
      if caller !in users || !users[caller].isAdmin {
        return Err(AdminRequired);
      }
      if ready == Some(true) {
        return Ok(());
      }
      if fence.Some? {
        if InitTime(now, fence.value).Some? {
          return Err(FreshlyInitialized);
        }
        if now < fence.value + RESTORE_QUIET {
          return Err(RestoreInProgress);
        }
      }
      RebuildAllReferences();
      ready := Some(true);
      return Ok(());
    }

    method ReleaseStorageInitFence(now: Micros, caller: Identity, oldestObjectAt: Option<Micros>)
      returns (r: Result<(), Error>)
      requires Valid() && Realistic(now)
      modifies this`fence
      ensures Valid() && Carried(Release(old(View()), now, caller, oldestObjectAt), r, old(View()), View())
    {
      if caller !in users || !users[caller].isAdmin {
        return Err(AdminRequired);
      }
      if fence.None? {
        return Ok(());
      }
      var initializedAt := InitTime(now, fence.value);
      if initializedAt.None? {
        return Ok(());
      }
      if oldestObjectAt.Some? && oldestObjectAt.value < initializedAt.value {
        return Err(ObjectsPredateDatabase);
      }
      fence := None;
      return Ok(());
    }

    /** Whether the index by storage key finds a row. */
    method HasReference(storageKey: string) returns (found: bool)
      requires Valid()
      ensures found == Referenced(references, storageKey)
    {
      found := exists key :: key in storageReference && storageReference[key].storageKey == storageKey;
      if found {
        ghost var key :| key in storageReference && storageReference[key].storageKey == storageKey;
        assert StandsFor(references, key);
        ghost var r :| r in references && KeyOf(r) == key;
        assert HasRow(storageReference, r);
      } else {
        forall r | r in references ensures r.storageKey != storageKey {
          assert HasRow(storageReference, r);
        }
      }
    }

    method ClaimUnreferencedStorage(now: Micros, caller: Identity, batchId: string, storageKeys: seq<string>)
      returns (r: Result<(), Error>)
      requires Valid()
      modifies this`claims, this`batches
      ensures Valid()
      ensures Carried(ClaimUnreferenced(old(View()), now, caller, batchId, storageKeys), r, old(View()), View())
    {
      if caller !in users || !users[caller].isAdmin {
        return Err(AdminRequired);
      }
      if |batchId| != 32 || !(forall c :: c in batchId ==> IsHexDigit(c)) {
        return Err(InvalidBatchId);
      }
      if |storageKeys| > MAX_CLAIM_BATCH {
        return Err(TooManyKeys);
      }
      if ready != Some(true) {
        return Err(NotReady);
      }
      batches := batches[caller := batchId];
      ClaimKeys(now, batchId, storageKeys);
      return Ok(());
    }

    method ClaimKeys(now: Micros, batchId: string, storageKeys: seq<string>)
      requires Valid()
      modifies this`claims
      ensures Valid() && claims == Claimed(old(claims), references, now, batchId, storageKeys)
    {
      ghost var before := claims;
      var seen: set<string> := {};
      for n := 0 to |storageKeys|
        modifies this`claims
        invariant Valid()
        invariant forall k :: k in seen <==> k in storageKeys[..n]
        invariant claims == Claimed(before, references, now, batchId, storageKeys[..n])
      {
        var key := storageKeys[n];
        ClaimedStep(before, references, now, batchId, storageKeys, n);
        var found := HasReference(key);
        if key !in seen && !found {
          if key in claims {
            claims := claims[key := claims[key].(batchId := batchId)];
          } else {
            claims := claims[key := Claim(now, batchId)];
          }
        }
        seen := seen + {key};
      }
      assert storageKeys[..|storageKeys|] == storageKeys;
    }
  }

  lemma FreshOwner(references: set<Reference>, o: Owner, keys: seq<string>)
    requires forall r :: r in references ==> r.owner != o
    ensures Replaced(references, o, keys) == references + OwnerReferences(o, keys)
  {
  }

  /** What a rebuild reads from the rows does not depend on the references. */
  lemma SameRows(db: Db, references: set<Reference>)
    ensures MessageReferences(db.(references := references), db.messages.Keys) ==
      MessageReferences(db, db.messages.Keys)
    ensures DirectMessageReferences(db.(references := references), db.directMessages.Keys) ==
      DirectMessageReferences(db, db.directMessages.Keys)
    ensures AvatarReferences(db.(references := references), db.users.Keys) == AvatarReferences(db, db.users.Keys)
    ensures IconReferences(db.(references := references), db.servers.Keys) == IconReferences(db, db.servers.Keys)
  {
  }

  /** One turn of each rebuild loop. */
  lemma MessageAdded(db: Db, done: set<nat>, id: nat)
    requires done <= db.messages.Keys && id in db.messages && id !in done
    requires forall r :: r in db.references ==> !r.owner.MessageOwner?
    ensures db.messages[id].deleted ==> MessageReferences(db, done + {id}) == MessageReferences(db, done)
    ensures Replaced(db.references + MessageReferences(db, done), MessageOwner(id), MessageKeys(db, id)) ==
      db.references + MessageReferences(db, done + {id})
  {
    FreshOwner(db.references + MessageReferences(db, done), MessageOwner(id), MessageKeys(db, id));
    assert MessageReferences(db, done + {id}) ==
      MessageReferences(db, done) + OwnerReferences(MessageOwner(id), MessageKeys(db, id));
  }

  lemma DirectMessageAdded(db: Db, done: set<nat>, id: nat)
    requires done <= db.directMessages.Keys && id in db.directMessages && id !in done
    requires forall r :: r in db.references ==> !r.owner.DmOwner?
    ensures Replaced(db.references + DirectMessageReferences(db, done), DmOwner(id), DirectMessageKeys(db, id)) ==
      db.references + DirectMessageReferences(db, done + {id})
  {
    FreshOwner(db.references + DirectMessageReferences(db, done), DmOwner(id), DirectMessageKeys(db, id));
    assert DirectMessageReferences(db, done + {id}) ==
      DirectMessageReferences(db, done) + OwnerReferences(DmOwner(id), DirectMessageKeys(db, id));
  }

  lemma AvatarAdded(db: Db, done: set<Identity>, u: Identity)
    requires done <= db.users.Keys && u in db.users && u !in done
    requires forall v :: v in done ==> db.users[v].username != db.users[u].username
    requires forall r :: r in db.references ==> !r.owner.AvatarOwner?
    ensures
      Replaced(db.references + AvatarReferences(db, done), AvatarOwner(db.users[u].username), AvatarKeys(db, u)) ==
      db.references + AvatarReferences(db, done + {u})
  {
    var o := AvatarOwner(db.users[u].username);
    FreshOwner(db.references + AvatarReferences(db, done), o, AvatarKeys(db, u));
    assert AvatarReferences(db, done + {u}) == AvatarReferences(db, done) + OwnerReferences(o, AvatarKeys(db, u));
  }

  lemma IconAdded(db: Db, done: set<nat>, id: nat)
    requires done <= db.servers.Keys && id in db.servers && id !in done
    requires forall r :: r in db.references ==> !r.owner.IconOwner?
    ensures Replaced(db.references + IconReferences(db, done), IconOwner(id), IconKeys(db, id)) ==
      db.references + IconReferences(db, done + {id})
  {
    FreshOwner(db.references + IconReferences(db, done), IconOwner(id), IconKeys(db, id));
    assert IconReferences(db, done + {id}) ==
      IconReferences(db, done) + OwnerReferences(IconOwner(id), IconKeys(db, id));
  }

  /** One turn of the claim loop. */
  lemma ClaimedStep(claims: map<string, Claim>, references: set<Reference>, now: Micros, batchId: string,
                    keys: seq<string>, n: nat)
    requires n < |keys|
    ensures
      var before, key := Claimed(claims, references, now, batchId, keys[..n]), keys[n];
      Claimed(claims, references, now, batchId, keys[..n + 1]) ==
        if key in keys[..n] || Referenced(references, key) then before
        else before[key := if key in before then before[key].(batchId := batchId) else Claim(now, batchId)]
  {
    var before, key := Claimed(claims, references, now, batchId, keys[..n]), keys[n];
    var after := Claimed(claims, references, now, batchId, keys[..n + 1]);
    assert keys[..n + 1] == keys[..n] + [key];
    if key in keys[..n] || Referenced(references, key) {
      assert after.Keys == before.Keys;
    } else {
      assert key in before <==> key in claims;
      var claim := if key in before then before[key].(batchId := batchId) else Claim(now, batchId);
      assert after.Keys == before[key := claim].Keys;
      assert after[key] == claim;
    }
  }
}
