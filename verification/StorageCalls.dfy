/**
  The reducers that touch stored objects, as steps of the database. A refused
  call aborts its transaction and changes nothing. Permission checks that only
  refuse more calls are left to the caller's choice of calls.
*/
module StorageCalls {
  import opened Wrappers
  import opened Text
  import opened ReferenceKeys
  import opened Attachments
  import opened Fence
  import opened StorageState

  datatype Call =
    | SendMessage(id: nat, channel: nat, sender: Identity, content: string)
    | EditMessage(id: nat, sender: Identity, content: string)
    | DeleteMessage(id: nat)
    | DeleteChannel(channel: nat)
    | SendDirectMessage(id: nat, sender: Identity, recipient: Identity, content: string)
    | EditDirectMessage(id: nat, sender: Identity, content: string)
    | DeleteDirectMessage(id: nat, caller: Identity)
    | RegisterUser(caller: Identity, username: string, granted: bool)
    | UpdateProfile(caller: Identity, avatarUrl: Option<string>)
    | SetAdmin(user: Identity, isAdmin: bool)
    | CreateServer(id: nat)
    | SetServerIcon(id: nat, caller: Identity, iconUrl: Option<string>)
    | DeleteServer(id: nat)
    | RestoreMessages(messages: seq<(nat, Message)>)
    | RestoreDirectMessages(directMessages: seq<(nat, DirectMessage)>)
    | RestoreUsers(users: seq<(Identity, User)>)
    | RestoreServers(servers: seq<(nat, Server)>)
    | RebuildReferences(caller: Identity)
    | ReleaseInitFence(caller: Identity, oldestObjectAt: Option<Micros>)
    | ClaimStorage(caller: Identity, batchId: string, keys: seq<string>)

  const DELETED_CONTENT := "[message deleted]"

  function PerformSend(db: Db, id: nat, m: Message): Result<Db, Error> {
    if id in db.messages then Err(Taken)
    else
      SyncMessage(db.(messages := db.messages[id := m]), MessageOwner(id), m.content, m.sender, InChannel(m.channel))
  }

  function PerformEdit(db: Db, id: nat, sender: Identity, content: string): Result<Db, Error> {
    if id !in db.messages then Err(NoSuchRow)
    else
      var m := db.messages[id];
      if m.sender != sender || m.deleted then Err(Refused)
      else
        match SyncMessage(db, MessageOwner(id), content, sender, InChannel(m.channel))
        case Err(e) => Err(e)
        case Ok(t) => Ok(t.(messages := t.messages[id := m.(content := content)]))
  }

  function PerformDelete(db: Db, id: nat): Result<Db, Error> {
    if id !in db.messages then Err(NoSuchRow)
    else
      Ok(db.(messages := db.messages[id := db.messages[id].(deleted := true, content := DELETED_CONTENT)],
             references := WithoutOwner(db.references, MessageOwner(id))))
  }

  predicate InDeletedChannel(db: Db, o: Owner, channel: nat) {
    o.MessageOwner? && o.id in db.messages && db.messages[o.id].channel == channel
  }

  /** `delete_channel_with_dependencies` removes each message with its references. */
  function WithoutChannel(db: Db, channel: nat): Db {
    db.(messages := map id | id in db.messages && db.messages[id].channel != channel :: db.messages[id],
        references := set r | r in db.references && !InDeletedChannel(db, r.owner, channel))
  }

  function PerformSendDirect(db: Db, id: nat, m: DirectMessage): Result<Db, Error> {
    if id in db.directMessages then Err(Taken)
    else
      SyncMessage(db.(directMessages := db.directMessages[id := m]), DmOwner(id), m.content, m.sender,
                  ToPartner(m.recipient))
  }

  function PerformEditDirect(db: Db, id: nat, sender: Identity, content: string): Result<Db, Error> {
    if id !in db.directMessages then Err(NoSuchRow)
    else
      var m := db.directMessages[id];
      if m.sender != sender then Err(Refused)
      else
        match SyncMessage(db, DmOwner(id), content, sender, ToPartner(m.recipient))
        case Err(e) => Err(e)
        case Ok(t) => Ok(t.(directMessages := t.directMessages[id := m.(content := content)]))
  }

  /** A DM row and its references stay until both sides have deleted it. */
  function PerformDeleteDirect(db: Db, id: nat, caller: Identity): Result<Db, Error> {
    if id !in db.directMessages then Err(NoSuchRow)
    else
      var m := db.directMessages[id];
      if m.sender != caller && m.recipient != caller then Err(Refused)
      else
        var n := if m.sender == caller then m.(deletedBySender := true) else m.(deletedByRecipient := true);
        if n.deletedBySender && n.deletedByRecipient then
          Ok(db.(references := WithoutOwner(db.references, DmOwner(id)), directMessages := db.directMessages - {id}))
        else Ok(db.(directMessages := db.directMessages[id := n]))
  }

  predicate NameTaken(db: Db, username: string, except: Option<Identity>) {
    exists u :: u in db.users && db.users[u].username == username && Some(u) != except
  }

  /** `granted` says whether an administrator's grant was parked for the caller. */
  function PerformRegister(db: Db, caller: Identity, username: string, granted: bool): Result<Db, Error> {
    if !IsValidUsername(username) || NameTaken(db, username, None) || caller in db.users then Err(Refused)
    else Ok(db.(users := db.users[caller := User(username, None, granted)]))
  }

  /** Only a changed avatar is validated. */
  function PerformProfile(db: Db, caller: Identity, avatarUrl: Option<string>): Result<Db, Error> {
    if caller !in db.users then Err(NoSuchRow)
    else
      var user := db.users[caller];
      if avatarUrl.None? || avatarUrl == user.avatarUrl then Ok(db)
      else
        match SyncAvatar(db, user.username, avatarUrl)
        case Err(e) => Err(e)
        case Ok(t) => Ok(t.(users := t.users[caller := user.(avatarUrl := avatarUrl)]))
  }

  function Normalized(url: Option<string>): Option<string> {
    if url.Some? && Trim(url.value) != "" then Some(Trim(url.value)) else None
  }

  function PerformIcon(db: Db, id: nat, caller: Identity, iconUrl: Option<string>): Result<Db, Error> {
    if id !in db.servers || caller !in db.users then Err(NoSuchRow)
    else
      var url := Normalized(iconUrl);
      if url == db.servers[id].iconUrl then Ok(db)
      else
        match SyncIcon(db, id, db.users[caller].username, url)
        case Err(e) => Err(e)
        case Ok(t) => Ok(t.(servers := t.servers[id := Server(url)]))
  }

  function RestoredMessages(db: Db, rows: seq<(nat, Message)>): Db
    decreases |rows|
  {
    if rows == [] then db
    else
      var t := RestoreMessage(db, MessageOwner(rows[0].0), rows[0].1.content);
      RestoredMessages(t.(messages := t.messages[rows[0].0 := rows[0].1]), rows[1..])
  }

  function RestoredDirectMessages(db: Db, rows: seq<(nat, DirectMessage)>): Db
    decreases |rows|
  {
    if rows == [] then db
    else
      var t := RestoreMessage(db, DmOwner(rows[0].0), rows[0].1.content);
      RestoredDirectMessages(t.(directMessages := t.directMessages[rows[0].0 := rows[0].1]), rows[1..])
  }

  /** A restored user name another account holds breaks the unique column and aborts the batch. */
  function RestoredUsers(db: Db, rows: seq<(Identity, User)>): Result<Db, Error>
    decreases |rows|
  {
    if rows == [] then Ok(db)
    else if NameTaken(db, rows[0].1.username, Some(rows[0].0)) then Err(Taken)
    else
      var t := RestoreSingle(db, AvatarOwner(rows[0].1.username), rows[0].1.avatarUrl);
      RestoredUsers(t.(users := t.users[rows[0].0 := rows[0].1]), rows[1..])
  }

  function RestoredServers(db: Db, rows: seq<(nat, Server)>): Db
    decreases |rows|
  {
    if rows == [] then db
    else
      var t := RestoreSingle(db, IconOwner(rows[0].0), rows[0].1.iconUrl);
      RestoredServers(t.(servers := t.servers[rows[0].0 := rows[0].1]), rows[1..])
  }

  predicate IsRestore(call: Call) {
    call.RestoreMessages? || call.RestoreDirectMessages? || call.RestoreUsers? || call.RestoreServers?
  }

  function PerformRestore(db: Db, now: Micros, call: Call): Result<Db, Error>
    requires IsRestore(call) && Realistic(now)
  {
    var fenced := SetFence(db, now);
    match call
    case RestoreMessages(rows) => Ok(RestoredMessages(fenced, rows))
    case RestoreDirectMessages(rows) => Ok(RestoredDirectMessages(fenced, rows))
    case RestoreUsers(rows) => RestoredUsers(fenced, rows)
    case RestoreServers(rows) => Ok(RestoredServers(fenced, rows))
  }

  predicate IsMessageCall(call: Call) {
    || call.SendMessage? || call.EditMessage? || call.DeleteMessage? || call.DeleteChannel?
    || call.SendDirectMessage? || call.EditDirectMessage? || call.DeleteDirectMessage?
  }

  function PerformMessage(db: Db, call: Call): Result<Db, Error>
    requires IsMessageCall(call)
  {
    match call
    case SendMessage(id, channel, sender, content) => PerformSend(db, id, Message(channel, sender, content, false))
    case EditMessage(id, sender, content) => PerformEdit(db, id, sender, content)
    case DeleteMessage(id) => PerformDelete(db, id)
    case DeleteChannel(channel) => Ok(WithoutChannel(db, channel))
    case SendDirectMessage(id, sender, recipient, content) =>
      PerformSendDirect(db, id, DirectMessage(sender, recipient, content, false, false))
    case EditDirectMessage(id, sender, content) => PerformEditDirect(db, id, sender, content)
    case DeleteDirectMessage(id, caller) => PerformDeleteDirect(db, id, caller)
  }

  predicate IsUserCall(call: Call) {
    call.RegisterUser? || call.UpdateProfile? || call.SetAdmin?
  }

  function PerformUser(db: Db, call: Call): Result<Db, Error>
    requires IsUserCall(call)
  {
    match call
    case RegisterUser(caller, username, granted) => PerformRegister(db, caller, username, granted)
    case UpdateProfile(caller, avatarUrl) => PerformProfile(db, caller, avatarUrl)
    case SetAdmin(user, isAdmin) =>
      if user !in db.users then Err(NoSuchRow)
      else Ok(db.(users := db.users[user := db.users[user].(isAdmin := isAdmin)]))
  }

  predicate IsServerCall(call: Call) {
    call.CreateServer? || call.SetServerIcon? || call.DeleteServer?
  }

  function PerformServer(db: Db, call: Call): Result<Db, Error>
    requires IsServerCall(call)
  {
    match call
    case CreateServer(id) =>
      if id in db.servers then Err(Taken) else Ok(db.(servers := db.servers[id := Server(None)]))
    case SetServerIcon(id, caller, iconUrl) => PerformIcon(db, id, caller, iconUrl)
    case DeleteServer(id) =>
      Ok(db.(references := WithoutOwner(db.references, IconOwner(id)), servers := db.servers - {id}))
  }

  /** What a call makes of the database at time `now`. */
  function Perform(db: Db, now: Micros, call: Call): Result<Db, Error>
    requires Realistic(now)
  {
    if IsMessageCall(call) then PerformMessage(db, call)
    else if IsUserCall(call) then PerformUser(db, call)
    else if IsServerCall(call) then PerformServer(db, call)
    else if IsRestore(call) then PerformRestore(db, now, call)
    else
      match call
      case RebuildReferences(caller) => Rebuild(db, now, caller)
      case ReleaseInitFence(caller, oldestObjectAt) => Release(db, now, caller, oldestObjectAt)
      case ClaimStorage(caller, batchId, keys) => ClaimUnreferenced(db, now, caller, batchId, keys)
  }

  // ------------------------------------------------------------ the invariant

  /** The derived table is the index of the live rows, but for tombstoned keys. */
  ghost predicate Exact(db: Db) {
    forall o, k :: Reference(o, k) in db.references <==> Lists(db, o, k) && k !in db.claims
  }

  ghost predicate Disjoint(db: Db) {
    forall r :: r in db.references ==> r.storageKey !in db.claims
  }

  /** User names are unique. */
  predicate Names(db: Db) {
    forall u, v :: u in db.users && v in db.users && db.users[u].username == db.users[v].username ==> u == v
  }

  /** The live row of `o` lists `key`, and a rebuild reads it. */
  ghost predicate Restorable(db: Db, o: Owner, key: string) {
    Lists(db, o, key) && ((o.AvatarOwner? || o.IconOwner?) ==> !Contains(key, ".."))
  }

  /** An avatar or icon the updates accept and a rebuild does not read. */
  predicate IsSkipped(url: Option<string>) {
    url.Some? && IsUpload(url.value) && Contains(url.value, "..")
  }

  function SkippedOwners(db: Db): set<Owner> {
    (set u | u in db.users && IsSkipped(db.users[u].avatarUrl) :: AvatarOwner(db.users[u].username))
    + (set id | id in db.servers && IsSkipped(db.servers[id].iconUrl) :: IconOwner(id))
  }

  /**
    The derived table is the index of the live rows, but for tombstoned keys and
    for the columns in `lost`, whose keys a rebuild does not read.
  */
  ghost predicate Indexed(db: Db, lost: set<Owner>) {
    && (forall o :: o in lost ==> o.AvatarOwner? || o.IconOwner?)
    && (forall o, k :: o in lost && Lists(db, o, k) ==> !Restorable(db, o, k))
    && (forall o, k :: Reference(o, k) in db.references <==> Lists(db, o, k) && k !in db.claims && o !in lost)
  }

  /**
    The columns whose reference is missing after a call that led from `db` to
    `t`: a rebuild loses those it skips, setting a column brings it back.
  */
  function LostAfter(db: Db, t: Db, call: Call, lost: set<Owner>): set<Owner> {
    match call
    case RebuildReferences(_) => if IsReady(db) then lost else SkippedOwners(db)
    case UpdateProfile(caller, _) =>
      if caller in db.users && t.users != db.users then lost - {AvatarOwner(db.users[caller].username)} else lost
    case SetServerIcon(id, _, _) => if t.servers != db.servers then lost - {IconOwner(id)} else lost
    case DeleteServer(id) => lost - {IconOwner(id)}
    case _ => lost
  }

  /** What every reducer keeps, whatever keys the profiles, icons and restored rows hold. */
  ghost predicate Inv(db: Db, lost: set<Owner>) {
    Names(db) && Disjoint(db) && (IsReady(db) ==> Indexed(db, lost))
  }

  /** Replacing the references of `o` by the keys its row lists keeps the index, and `o` is not lost. */
  lemma ReplaceKeepsIndex(db: Db, t: Db, lost: set<Owner>, o: Owner, keys: seq<string>)
    requires Indexed(db, lost) && t.claims == db.claims && t.references == Replaced(db.references, o, keys)
    requires forall p, k :: p != o ==> (Lists(t, p, k) <==> Lists(db, p, k))
    requires forall k :: k in keys <==> Lists(t, o, k) && k !in t.claims
    ensures Indexed(t, lost - {o})
    ensures !o.AvatarOwner? && !o.IconOwner? ==> Indexed(t, lost)
  {
    forall p, k ensures Reference(p, k) in t.references <==> Lists(t, p, k) && k !in t.claims && p !in lost - {o} {
      assert Reference(p, k) in WithoutOwner(db.references, o) <==> Reference(p, k) in db.references && p != o;
    }
    if !o.AvatarOwner? && !o.IconOwner? {
      assert lost - {o} == lost;
    }
  }

  /** A change of rows that lists the same keys for the same owners keeps the index. */
  lemma SameListsKeepIndex(db: Db, t: Db, lost: set<Owner>)
    requires Indexed(db, lost) && t.references == db.references && t.claims == db.claims
    requires forall o, k :: Lists(t, o, k) <==> Lists(db, o, k)
    ensures Indexed(t, lost)
  {
  }

  /** A message sync that goes through replaced the references by unclaimed keys. */
  lemma SyncedMessage(db: Db, o: Owner, content: string, sender: Identity, scope: AttachmentScope)
    requires SyncMessage(db, o, content, sender, scope).Ok?
    ensures Keys(db.decode, content).Ok?
    ensures
      var keys := Keys(db.decode, content).value;
      && SyncMessage(db, o, content, sender, scope).value == db.(references := Replaced(db.references, o, keys))
      && forall k :: k in keys ==> k !in db.claims
  {
  }

  lemma SendKeepsIndex(db: Db, lost: set<Owner>, id: nat, m: Message)
    requires Indexed(db, lost) && !m.deleted && PerformSend(db, id, m).Ok?
    ensures Indexed(PerformSend(db, id, m).value, lost)
  {
    var inserted := db.(messages := db.messages[id := m]);
    SyncedMessage(inserted, MessageOwner(id), m.content, m.sender, InChannel(m.channel));
    var t := PerformSend(db, id, m).value;
    ReplaceKeepsIndex(db, t, lost, MessageOwner(id), Keys(db.decode, m.content).value);
  }

  lemma EditKeepsIndex(db: Db, lost: set<Owner>, id: nat, sender: Identity, content: string)
    requires Indexed(db, lost) && PerformEdit(db, id, sender, content).Ok?
    ensures Indexed(PerformEdit(db, id, sender, content).value, lost)
  {
    SyncedMessage(db, MessageOwner(id), content, sender, InChannel(db.messages[id].channel));
    var t := PerformEdit(db, id, sender, content).value;
    ReplaceKeepsIndex(db, t, lost, MessageOwner(id), Keys(db.decode, content).value);
  }

  lemma DeleteKeepsIndex(db: Db, lost: set<Owner>, id: nat)
    requires Indexed(db, lost) && PerformDelete(db, id).Ok?
    ensures Indexed(PerformDelete(db, id).value, lost)
  {
    ReplaceKeepsIndex(db, PerformDelete(db, id).value, lost, MessageOwner(id), []);
  }

  lemma DeleteChannelKeepsIndex(db: Db, lost: set<Owner>, channel: nat)
    requires Indexed(db, lost)
    ensures Indexed(WithoutChannel(db, channel), lost)
  {
    var t := WithoutChannel(db, channel);
    assert forall o, k :: o in lost ==> (Lists(t, o, k) <==> Lists(db, o, k));
    forall o, k ensures Reference(o, k) in t.references <==> Lists(t, o, k) && k !in t.claims && o !in lost {
      assert Reference(o, k) in t.references <==>
        Reference(o, k) in db.references && !InDeletedChannel(db, o, channel);
    }
  }

  lemma SendDirectKeepsIndex(db: Db, lost: set<Owner>, id: nat, m: DirectMessage)
    requires Indexed(db, lost) && PerformSendDirect(db, id, m).Ok?
    ensures Indexed(PerformSendDirect(db, id, m).value, lost)
  {
    var inserted := db.(directMessages := db.directMessages[id := m]);
    SyncedMessage(inserted, DmOwner(id), m.content, m.sender, ToPartner(m.recipient));
    var t := PerformSendDirect(db, id, m).value;
    ReplaceKeepsIndex(db, t, lost, DmOwner(id), Keys(db.decode, m.content).value);
  }

  lemma EditDirectKeepsIndex(db: Db, lost: set<Owner>, id: nat, sender: Identity, content: string)
    requires Indexed(db, lost) && PerformEditDirect(db, id, sender, content).Ok?
    ensures Indexed(PerformEditDirect(db, id, sender, content).value, lost)
  {
    SyncedMessage(db, DmOwner(id), content, sender, ToPartner(db.directMessages[id].recipient));
    var t := PerformEditDirect(db, id, sender, content).value;
    ReplaceKeepsIndex(db, t, lost, DmOwner(id), Keys(db.decode, content).value);
  }

  /** Marking a row as deleted by one side lists nothing new. */
  lemma MarkedDirectKeepsIndex(db: Db, lost: set<Owner>, id: nat, m: DirectMessage)
    requires Indexed(db, lost) && id in db.directMessages && m.content == db.directMessages[id].content
    ensures Indexed(db.(directMessages := db.directMessages[id := m]), lost)
  {
    SameListsKeepIndex(db, db.(directMessages := db.directMessages[id := m]), lost);
  }

  lemma RemovedDirectKeepsIndex(db: Db, lost: set<Owner>, id: nat)
    requires Indexed(db, lost)
    ensures
      var t := db.(references := WithoutOwner(db.references, DmOwner(id)), directMessages := db.directMessages - {id});
      Indexed(t, lost)
  {
    var t := db.(references := WithoutOwner(db.references, DmOwner(id)), directMessages := db.directMessages - {id});
    ReplaceKeepsIndex(db, t, lost, DmOwner(id), []);
  }

  lemma DeleteDirectKeepsIndex(db: Db, lost: set<Owner>, id: nat, caller: Identity)
    requires Indexed(db, lost) && PerformDeleteDirect(db, id, caller).Ok?
    ensures Indexed(PerformDeleteDirect(db, id, caller).value, lost)
  {
    var t := PerformDeleteDirect(db, id, caller).value;
    if id in t.directMessages {
      MarkedDirectKeepsIndex(db, lost, id, t.directMessages[id]);
    } else {
      RemovedDirectKeepsIndex(db, lost, id);
    }
  }

  /** An accepted avatar or icon is an upload key nobody has claimed, and it becomes the owner's only reference. */
  lemma SyncedSingle(db: Db, o: Owner, url: Option<string>, fits: bool, refusal: Error) returns (keys: seq<string>)
    requires SyncSingle(db, o, url, fits, refusal).Ok?
    requires url.Some? && fits ==> IsUpload(url.value)
    ensures SyncSingle(db, o, url, fits, refusal).value == db.(references := Replaced(db.references, o, keys))
    ensures forall k :: k in keys <==> NamesObject(url, k) && k !in db.claims
  {
    keys := if url.None? || url.value == "" then [] else [url.value];
    assert url == Some("") ==> !IsUpload("");
  }

  lemma SetAvatarKeepsIndex(db: Db, t: Db, lost: set<Owner>, caller: Identity, url: Option<string>, keys: seq<string>)
    requires Names(db) && Indexed(db, lost) && caller in db.users
    requires t == db.(users := db.users[caller := db.users[caller].(avatarUrl := url)],
                      references := Replaced(db.references, AvatarOwner(db.users[caller].username), keys))
    requires forall k :: k in keys <==> NamesObject(url, k) && k !in db.claims
    ensures Indexed(t, lost - {AvatarOwner(db.users[caller].username)})
  {
    AvatarListsChange(db, t, caller, url);
    ReplaceKeepsIndex(db, t, lost, AvatarOwner(db.users[caller].username), keys);
  }

  lemma ProfileKeepsIndex(db: Db, lost: set<Owner>, caller: Identity, avatarUrl: Option<string>)
    requires Names(db) && Indexed(db, lost) && PerformProfile(db, caller, avatarUrl).Ok?
    ensures
      var t := PerformProfile(db, caller, avatarUrl).value;
      Indexed(t, LostAfter(db, t, UpdateProfile(caller, avatarUrl), lost))
  {
    var t := PerformProfile(db, caller, avatarUrl).value;
    var name := db.users[caller].username;
    if avatarUrl.Some? && avatarUrl != db.users[caller].avatarUrl {
      var fits := IsAvatarKey(avatarUrl.value, name);
      if fits {
        AdmittedKeyIsUpload(avatarUrl.value, AvatarScope(name));
      }
      var keys := SyncedSingle(db, AvatarOwner(name), avatarUrl, fits, WrongAvatarKey);
      SetAvatarKeepsIndex(db, t, lost, caller, avatarUrl, keys);
      assert t.users[caller] != db.users[caller];
    }
  }

  lemma AvatarListsChange(db: Db, t: Db, caller: Identity, avatarUrl: Option<string>)
    requires Names(db) && caller in db.users
    requires t == db.(users := db.users[caller := db.users[caller].(avatarUrl := avatarUrl)],
                      references := t.references)
    ensures forall p, k :: p != AvatarOwner(db.users[caller].username) ==> (Lists(t, p, k) <==> Lists(db, p, k))
    ensures forall k :: Lists(t, AvatarOwner(db.users[caller].username), k) <==> NamesObject(avatarUrl, k)
  {
    forall p, k | p != AvatarOwner(db.users[caller].username) ensures Lists(t, p, k) <==> Lists(db, p, k) {
      if p.AvatarOwner? {
        assert forall u :: u in db.users && db.users[u].username == p.username ==> t.users[u] == db.users[u];
      }
    }
    assert t.users[caller].avatarUrl == avatarUrl;
  }

  lemma SetIconKeepsIndex(db: Db, t: Db, lost: set<Owner>, id: nat, url: Option<string>, keys: seq<string>)
    requires Indexed(db, lost)
    requires t == db.(servers := db.servers[id := Server(url)],
                      references := Replaced(db.references, IconOwner(id), keys))
    requires forall k :: k in keys <==> NamesObject(url, k) && k !in db.claims
    ensures Indexed(t, lost - {IconOwner(id)})
  {
    IconListsChange(db, t, id, url);
    ReplaceKeepsIndex(db, t, lost, IconOwner(id), keys);
  }

  lemma SyncedIcon(db: Db, id: nat, uploader: string, url: Option<string>) returns (keys: seq<string>)
    requires SyncIcon(db, id, uploader, url).Ok?
    ensures SyncIcon(db, id, uploader, url).value == db.(references := Replaced(db.references, IconOwner(id), keys))
    ensures forall k :: k in keys <==> NamesObject(url, k) && k !in db.claims
  {
    var fits := url.Some? && IsIconKey(url.value, id, uploader);
    if fits {
      AdmittedKeyIsUpload(url.value, IconScope(id, uploader));
    }
    keys := SyncedSingle(db, IconOwner(id), url, fits, WrongIconKey);
  }

  /** An accepted icon either is the one already set or takes its place with its reference. */
  lemma PerformedIcon(db: Db, id: nat, caller: Identity, iconUrl: Option<string>)
    returns (url: Option<string>, keys: seq<string>)
    requires PerformIcon(db, id, caller, iconUrl).Ok?
    ensures id in db.servers
    ensures
      var t := PerformIcon(db, id, caller, iconUrl).value;
      if url == db.servers[id].iconUrl then t == db
      else
        t == db.(servers := db.servers[id := Server(url)], references := Replaced(db.references, IconOwner(id), keys))
    ensures forall k :: k in keys <==> NamesObject(url, k) && k !in db.claims
  {
    url := Normalized(iconUrl);
    if url != db.servers[id].iconUrl {
      keys := SyncedIcon(db, id, db.users[caller].username, url);
    } else {
      keys := Unclaimed(db.claims, if url.Some? && IsUpload(url.value) then [url.value] else []);
    }
  }

  lemma IconKeepsIndex(db: Db, lost: set<Owner>, id: nat, caller: Identity, iconUrl: Option<string>)
    requires Indexed(db, lost) && PerformIcon(db, id, caller, iconUrl).Ok?
    ensures
      var t := PerformIcon(db, id, caller, iconUrl).value;
      Indexed(t, LostAfter(db, t, SetServerIcon(id, caller, iconUrl), lost))
  {
    var t := PerformIcon(db, id, caller, iconUrl).value;
    var url, keys := PerformedIcon(db, id, caller, iconUrl);
    if url != db.servers[id].iconUrl {
      SetIconKeepsIndex(db, t, lost, id, url, keys);
      assert t.servers[id] != db.servers[id];
    }
  }

  lemma IconListsChange(db: Db, t: Db, id: nat, url: Option<string>)
    requires t == db.(servers := db.servers[id := Server(url)], references := t.references)
    ensures forall p, k :: p != IconOwner(id) ==> (Lists(t, p, k) <==> Lists(db, p, k))
    ensures forall k :: Lists(t, IconOwner(id), k) <==> NamesObject(url, k)
  {
  }

  /** Changing who is registered or an admin lists nothing new. */
  lemma UserRowKeepsIndex(db: Db, t: Db, lost: set<Owner>, u: Identity)
    requires Indexed(db, lost) && u in t.users && t == db.(users := db.users[u := t.users[u]])
    requires if u in db.users then t.users[u] == db.users[u].(isAdmin := t.users[u].isAdmin)
             else t.users[u].avatarUrl == None
    ensures Indexed(t, lost)
  {
    forall o, k ensures Lists(t, o, k) <==> Lists(db, o, k) {
      if o.AvatarOwner? {
        assert forall v :: v in db.users ==>
          t.users[v].username == db.users[v].username && t.users[v].avatarUrl == db.users[v].avatarUrl;
      }
    }
    SameListsKeepIndex(db, t, lost);
  }

  lemma CreateServerKeepsIndex(db: Db, lost: set<Owner>, id: nat)
    requires Indexed(db, lost) && id !in db.servers
    ensures Indexed(db.(servers := db.servers[id := Server(None)]), lost)
  {
    SameListsKeepIndex(db, db.(servers := db.servers[id := Server(None)]), lost);
  }

  lemma DeleteServerKeepsIndex(db: Db, lost: set<Owner>, id: nat)
    requires Indexed(db, lost)
    ensures
      var t := db.(references := WithoutOwner(db.references, IconOwner(id)), servers := db.servers - {id});
      Indexed(t, lost - {IconOwner(id)})
  {
    var t := db.(references := WithoutOwner(db.references, IconOwner(id)), servers := db.servers - {id});
    ReplaceKeepsIndex(db, t, lost, IconOwner(id), []);
  }

  lemma ReplacedIsDisjoint(db: Db, o: Owner, keys: seq<string>)
    requires Disjoint(db) && forall k :: k in keys ==> k !in db.claims
    ensures Disjoint(db.(references := Replaced(db.references, o, keys)))
  {
  }

  /** Message calls change only messages and references, and reference no tombstoned key. */
  lemma MessageCallIsSound(db: Db, call: Call)
    requires Disjoint(db) && IsMessageCall(call) && PerformMessage(db, call).Ok?
    ensures
      var t := PerformMessage(db, call).value;
      Disjoint(t) && t == db.(messages := t.messages, directMessages := t.directMessages, references := t.references)
  {
    var t := PerformMessage(db, call).value;
    match call
    case SendMessage(id, channel, sender, content) =>
      SyncedMessage(db.(messages := t.messages), MessageOwner(id), content, sender, InChannel(channel));
      ReplacedIsDisjoint(db, MessageOwner(id), Keys(db.decode, content).value);
    case EditMessage(id, sender, content) =>
      SyncedMessage(db, MessageOwner(id), content, sender, InChannel(db.messages[id].channel));
      ReplacedIsDisjoint(db, MessageOwner(id), Keys(db.decode, content).value);
    case DeleteMessage(id) =>
    case DeleteChannel(channel) =>
    case SendDirectMessage(id, sender, recipient, content) =>
      SyncedMessage(db.(directMessages := t.directMessages), DmOwner(id), content, sender, ToPartner(recipient));
      ReplacedIsDisjoint(db, DmOwner(id), Keys(db.decode, content).value);
    case EditDirectMessage(id, sender, content) =>
      SyncedMessage(db, DmOwner(id), content, sender, ToPartner(db.directMessages[id].recipient));
      ReplacedIsDisjoint(db, DmOwner(id), Keys(db.decode, content).value);
    case DeleteDirectMessage(id, caller) =>
  }

  /** User calls keep names unique and well-formed, and change only users and references. */
  lemma UserCallIsSound(db: Db, call: Call)
    requires Disjoint(db) && Names(db)
    requires IsUserCall(call) && PerformUser(db, call).Ok?
    ensures
      var t := PerformUser(db, call).value;
      Disjoint(t) && Names(t) && t == db.(users := t.users, references := t.references)
  {
    var t := PerformUser(db, call).value;
    match call
    case RegisterUser(caller, username, _) =>
      assert forall u :: u in db.users ==> t.users[u] == db.users[u] && db.users[u].username != username;
    case UpdateProfile(caller, avatarUrl) => ProfileIsSound(db, caller, avatarUrl);
    case SetAdmin(user, isAdmin) =>
      assert forall u :: u in db.users ==>
        t.users[u].username == db.users[u].username && t.users[u].avatarUrl == db.users[u].avatarUrl;
  }

  lemma ProfileIsSound(db: Db, caller: Identity, avatarUrl: Option<string>)
    requires Disjoint(db) && Names(db)
    requires PerformProfile(db, caller, avatarUrl).Ok?
    ensures
      var t := PerformProfile(db, caller, avatarUrl).value;
      Disjoint(t) && Names(t) && t == db.(users := t.users, references := t.references)
  {
    var t := PerformProfile(db, caller, avatarUrl).value;
    if t != db {
      var user := db.users[caller];
      AvatarRowKeepsNames(db, caller, avatarUrl);
      ReplacedIsDisjoint(db, AvatarOwner(user.username), []);
      if avatarUrl.value !in db.claims {
        ReplacedIsDisjoint(db, AvatarOwner(user.username), [avatarUrl.value]);
      }
    }
  }

  lemma AvatarRowKeepsNames(db: Db, caller: Identity, avatarUrl: Option<string>)
    requires Names(db) && caller in db.users
    ensures Names(db.(users := db.users[caller := db.users[caller].(avatarUrl := avatarUrl)]))
  {
    var t := db.(users := db.users[caller := db.users[caller].(avatarUrl := avatarUrl)]);
    assert forall u :: u in db.users ==> t.users[u].username == db.users[u].username;
  }

  lemma ServerCallIsSound(db: Db, call: Call)
    requires Disjoint(db)
    requires IsServerCall(call) && PerformServer(db, call).Ok?
    ensures
      var t := PerformServer(db, call).value;
      Disjoint(t) && t == db.(servers := t.servers, references := t.references)
  {
  }

  // ------------------------------------------------------------ restore batches

  /** The part of the invariant a restore keeps while the index is not trusted. */
  ghost predicate Sound(db: Db) {
    Names(db) && Disjoint(db) && !IsReady(db)
  }

  lemma {:induction false} RestoredMessagesAreSound(db: Db, rows: seq<(nat, Message)>)
    requires Sound(db)
    ensures Sound(RestoredMessages(db, rows)) && RestoredMessages(db, rows).fence == db.fence
    ensures RestoredMessages(db, rows).claims == db.claims
    decreases |rows|
  {
    if rows != [] {
      var t := RestoreMessage(db, MessageOwner(rows[0].0), rows[0].1.content);
      RestoredMessagesAreSound(t.(messages := t.messages[rows[0].0 := rows[0].1]), rows[1..]);
    }
  }

  lemma {:induction false} RestoredDirectMessagesAreSound(db: Db, rows: seq<(nat, DirectMessage)>)
    requires Sound(db)
    ensures Sound(RestoredDirectMessages(db, rows)) && RestoredDirectMessages(db, rows).fence == db.fence
    ensures RestoredDirectMessages(db, rows).claims == db.claims
    decreases |rows|
  {
    if rows != [] {
      var t := RestoreMessage(db, DmOwner(rows[0].0), rows[0].1.content);
      RestoredDirectMessagesAreSound(t.(directMessages := t.directMessages[rows[0].0 := rows[0].1]), rows[1..]);
    }
  }

  lemma {:induction false} RestoredUsersAreSound(db: Db, rows: seq<(Identity, User)>)
    requires Sound(db) && RestoredUsers(db, rows).Ok?
    ensures Sound(RestoredUsers(db, rows).value) && RestoredUsers(db, rows).value.fence == db.fence
    ensures RestoredUsers(db, rows).value.claims == db.claims
    decreases |rows|
  {
    if rows != [] {
      var t := RestoreSingle(db, AvatarOwner(rows[0].1.username), rows[0].1.avatarUrl);
      var u := t.(users := t.users[rows[0].0 := rows[0].1]);
      assert forall i :: 0 <= i < |rows[1..]| ==> rows[1..][i] == rows[i + 1];
      RestoredUsersAreSound(u, rows[1..]);
    }
  }

  lemma {:induction false} RestoredServersAreSound(db: Db, rows: seq<(nat, Server)>)
    requires Sound(db)
    ensures Sound(RestoredServers(db, rows)) && RestoredServers(db, rows).fence == db.fence
    ensures RestoredServers(db, rows).claims == db.claims
    decreases |rows|
  {
    if rows != [] {
      var t := RestoreSingle(db, IconOwner(rows[0].0), rows[0].1.iconUrl);
      assert forall i :: 0 <= i < |rows[1..]| ==> rows[1..][i] == rows[i + 1];
      RestoredServersAreSound(t.(servers := t.servers[rows[0].0 := rows[0].1]), rows[1..]);
    }
  }

  /** A restore leaves the index untrusted and the fence at its own time. */
  lemma RestoreIsFenced(db: Db, now: Micros, call: Call)
    requires Names(db) && Disjoint(db) && Realistic(now)
    requires IsRestore(call) && PerformRestore(db, now, call).Ok?
    ensures
      var t := PerformRestore(db, now, call).value;
      Sound(t) && t.fence == Some(now) && t.claims == db.claims
  {
    var fenced := SetFence(db, now);
    match call
    case RestoreMessages(rows) => RestoredMessagesAreSound(fenced, rows);
    case RestoreDirectMessages(rows) => RestoredDirectMessagesAreSound(fenced, rows);
    case RestoreUsers(rows) => RestoredUsersAreSound(fenced, rows);
    case RestoreServers(rows) => RestoredServersAreSound(fenced, rows);
  }

  // ------------------------------------------------------------ rebuild and claim

  lemma RebuiltIsRestorable(db: Db, o: Owner, key: string)
    ensures Reference(o, key) in Rebuilt(db) <==> Restorable(db, o, key) && key !in db.claims
  {
    match o
    case MessageOwner(id) =>
      assert Reference(o, key) in Rebuilt(db) <==> id in db.messages && key in MessageKeys(db, id);
    case DmOwner(id) =>
      assert Reference(o, key) in Rebuilt(db) <==> id in db.directMessages && key in DirectMessageKeys(db, id);
    case AvatarOwner(name) =>
      assert Reference(o, key) in Rebuilt(db) <==>
        exists u :: u in db.users && db.users[u].username == name && key in AvatarKeys(db, u);
    case IconOwner(id) =>
      assert Reference(o, key) in Rebuilt(db) <==> id in db.servers && key in IconKeys(db, id);
  }
}
