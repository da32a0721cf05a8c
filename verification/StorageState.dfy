/**
  The storage reference protocol as values: the rows that list stored objects,
  the derived reference table, the tombstones, the fence, and what each reducer
  makes of them.
*/
module StorageState {
  import opened Wrappers
  import opened Text
  import opened ReferenceKeys
  import opened Attachments
  import opened Fence

  type Identity = nat

  datatype Message = Message(channel: nat, sender: Identity, content: string, deleted: bool)

  datatype DirectMessage = DirectMessage(
    sender: Identity, recipient: Identity, content: string, deletedBySender: bool, deletedByRecipient: bool)

  datatype User = User(username: string, avatarUrl: Option<string>, isAdmin: bool)

  datatype Server = Server(iconUrl: Option<string>)

  datatype Reference = Reference(owner: Owner, storageKey: string)

  datatype Claim = Claim(claimedAt: Micros, batchId: string)

  datatype Db = Db(
    decode: Decoder,
    messages: map<nat, Message>,
    directMessages: map<nat, DirectMessage>,
    users: map<Identity, User>,
    servers: map<nat, Server>,
    references: set<Reference>,
    ready: Option<bool>,
    fence: Option<FenceTime>,
    claims: map<string, Claim>,
    batches: map<Identity, string>)

  // ------------------------------------------------------------ reading the rows

  /** The keys of a content whose metadata is sound, none otherwise. */
  function KeysOrNone(decode: Decoder, content: string): seq<string> {
    match Keys(decode, content)
    case Ok(keys) => keys
    case Err(_) => []
  }

  /** A profile or space column names a stored object. */
  predicate NamesObject(url: Option<string>, key: string) {
    url == Some(key) && IsUpload(key)
  }

  /** What a restore or a rebuild reads from such a column. */
  function RestoredKeys(url: Option<string>): (r: seq<string>)
    ensures forall k :: k in r <==> NamesObject(url, k) && !Contains(k, "..")
    ensures NoDuplicates(r)
  {
    if url.Some? && IsUpload(url.value) && !Contains(url.value, "..") then [url.value] else []
  }

  /** The live row of owner `o` lists `key`. */
  ghost predicate Lists(db: Db, o: Owner, key: string) {
    match o
    case MessageOwner(id) =>
      id in db.messages && !db.messages[id].deleted && key in KeysOrNone(db.decode, db.messages[id].content)
    case DmOwner(id) =>
      id in db.directMessages && key in KeysOrNone(db.decode, db.directMessages[id].content)
    case AvatarOwner(username) =>
      exists u :: u in db.users && db.users[u].username == username && NamesObject(db.users[u].avatarUrl, key)
    case IconOwner(id) =>
      id in db.servers && NamesObject(db.servers[id].iconUrl, key)
  }

  predicate Referenced(references: set<Reference>, key: string) {
    exists r :: r in references && r.storageKey == key
  }

  predicate IsReady(db: Db) {
    db.ready == Some(true)
  }

  predicate IsAdmin(db: Db, who: Identity) {
    who in db.users && db.users[who].isAdmin
  }

  // -------------------------------------------------------- the reference table

  function WithoutOwner(references: set<Reference>, o: Owner): set<Reference> {
    set r | r in references && r.owner != o
  }

  function Replaced(references: set<Reference>, o: Owner, keys: seq<string>): set<Reference> {
    WithoutOwner(references, o) + OwnerReferences(o, keys)
  }

  function Unclaimed(claims: map<string, Claim>, keys: seq<string>): (r: seq<string>)
    ensures forall k :: k in r <==> k in keys && k !in claims
    ensures NoDuplicates(keys) ==> NoDuplicates(r)
  {
    if keys == [] then []
    else
      var n := |keys| - 1;
      var before := Unclaimed(claims, keys[..n]);
      if keys[n] in claims then before else before + [keys[n]]
  }


  datatype AttachmentScope = InChannel(channel: nat) | ToPartner(partner: Identity)

  function Username(db: Db, who: Identity): Result<string, Error> {
    if who in db.users then Ok(db.users[who].username) else Err(UnknownAccount)
  }

  /** The storage scopes a message may list keys of. */
  predicate FitsMessage(key: string, scope: AttachmentScope, sender: string, partner: string) {
    || IsLegacyKey(key, sender)
    || (match scope
        case InChannel(channel) => IsChannelKey(key, channel, sender)
        case ToPartner(_) => IsDmKey(key, sender, partner))
  }

  /** The scope in which a key fits a message. */
  function MessageScope(key: string, scope: AttachmentScope, sender: string, partner: string): (r: Scope)
    ensures FitsMessage(key, scope, sender, partner) ==> Admits(r, key)
  {
    if IsLegacyKey(key, sender) then LegacyScope(sender)
    else
      match scope
      case InChannel(channel) => ChannelScope(channel, sender)
      case ToPartner(_) => DmScope(sender, partner)
  }

  /**
    Where an accepted attachment can be attached again: by its uploader only,
    never as an avatar or icon, and, unless it has a legacy key, in its own
    channel or in a thread with the same partner only.
  */
  lemma AttachmentStaysInScope(key: string, s: AttachmentScope, sender: string, partner: string,
                               t: AttachmentScope, otherSender: string, otherPartner: string)
    requires FitsMessage(key, s, sender, partner) && FitsMessage(key, t, otherSender, otherPartner)
    ensures sender == otherSender
    ensures forall name :: !IsAvatarKey(key, name)
    ensures forall server, name :: !IsIconKey(key, server, name)
    ensures
      || IsLegacyKey(key, sender)
      || (s.InChannel? && t.InChannel? && s.channel == t.channel)
      || (s.ToPartner? && t.ToPartner? && partner == otherPartner)
  {
    var scope := MessageScope(key, s, sender, partner);
    KeyHasOneScope(key, scope, MessageScope(key, t, otherSender, otherPartner));
    forall name ensures !IsAvatarKey(key, name) {
      if IsAvatarKey(key, name) {
        KeyHasOneScope(key, scope, AvatarScope(name));
      }
    }
    forall server, name ensures !IsIconKey(key, server, name) {
      if IsIconKey(key, server, name) {
        KeyHasOneScope(key, scope, IconScope(server, name));
      }
    }
  }

  /** An accepted key fits every channel and every thread of its uploader if and only if it is a legacy key. */
  lemma FitsEverywhereIff(key: string, scope: AttachmentScope, sender: string, partner: string)
    requires FitsMessage(key, scope, sender, partner)
    ensures IsLegacyKey(key, sender) <==> forall t, p :: FitsMessage(key, t, sender, p)
  {
    if forall t, p :: FitsMessage(key, t, sender, p) {
      assert FitsMessage(key, InChannel(0), sender, partner) && FitsMessage(key, InChannel(1), sender, partner);
      AttachmentStaysInScope(key, InChannel(0), sender, partner, InChannel(1), sender, partner);
    }
  }

  /** The first key a message may not attach decides the refusal. */
  function Refusal(claims: map<string, Claim>, keys: seq<string>, scope: AttachmentScope,
                   sender: string, partner: string): (r: Option<Error>)
    ensures r.None? <==> forall k :: k in keys ==> k !in claims && FitsMessage(k, scope, sender, partner)
  {
    if keys == [] then None
    else if keys[0] in claims then Some(Expired)
    else if !FitsMessage(keys[0], scope, sender, partner) then
      Some(WrongMessageKey)
    else Refusal(claims, keys[1..], scope, sender, partner)
  }

  /** `sync_message_references` */
  function SyncMessage(db: Db, o: Owner, content: string, sender: Identity, scope: AttachmentScope): Result<Db, Error> {
    match Keys(db.decode, content)
    case Err(e) => Err(e)
    case Ok(keys) =>
      match Username(db, sender)
      case Err(e) => Err(e)
      case Ok(senderName) =>
        match (if scope.ToPartner? then Username(db, scope.partner) else Ok(""))
        case Err(e) => Err(e)
        case Ok(partnerName) =>
          match Refusal(db.claims, keys, scope, senderName, partnerName)
          case Some(e) => Err(e)
          case None => Ok(db.(references := Replaced(db.references, o, keys)))
  }

  function SyncSingle(db: Db, o: Owner, url: Option<string>, fits: bool, refusal: Error): Result<Db, Error> {
    if url.None? || url.value == "" then Ok(db.(references := Replaced(db.references, o, [])))
    else if !fits then Err(refusal)
    else if url.value in db.claims then Err(Expired)
    else Ok(db.(references := Replaced(db.references, o, [url.value])))
  }

  /** `sync_avatar_reference` */
  function SyncAvatar(db: Db, username: string, url: Option<string>): Result<Db, Error> {
    SyncSingle(db, AvatarOwner(username), url, url.Some? && IsAvatarKey(url.value, username),
               WrongAvatarKey)
  }

  /** `sync_icon_reference` */
  function SyncIcon(db: Db, server: nat, uploader: string, url: Option<string>): Result<Db, Error> {
    SyncSingle(db, IconOwner(server), url, url.Some? && IsIconKey(url.value, server, uploader),
               WrongIconKey)
  }

  /** `restore_message_references` */
  function RestoreMessage(db: Db, o: Owner, content: string): Db {
    db.(references := Replaced(db.references, o, Unclaimed(db.claims, KeysOrNone(db.decode, content))))
  }

  /** `restore_single_reference` */
  function RestoreSingle(db: Db, o: Owner, url: Option<string>): Db {
    db.(references := Replaced(db.references, o, Unclaimed(db.claims, RestoredKeys(url))))
  }

  function SetFence(db: Db, fence: FenceTime): Db {
    db.(ready := if db.ready.Some? then Some(false) else None, fence := Some(fence))
  }

  // ------------------------------------------------------------ rebuild and claim

  function OwnerReferences(o: Owner, keys: seq<string>): set<Reference> {
    set k | k in keys :: Reference(o, k)
  }

  /** The keys a rebuild keeps of each kind of row. */
  function MessageKeys(db: Db, id: nat): seq<string>
    requires id in db.messages
  {
    if db.messages[id].deleted then []
    else Unclaimed(db.claims, KeysOrNone(db.decode, db.messages[id].content))
  }

  function DirectMessageKeys(db: Db, id: nat): seq<string>
    requires id in db.directMessages
  {
    Unclaimed(db.claims, KeysOrNone(db.decode, db.directMessages[id].content))
  }

  function AvatarKeys(db: Db, u: Identity): seq<string>
    requires u in db.users
  {
    Unclaimed(db.claims, RestoredKeys(db.users[u].avatarUrl))
  }

  function IconKeys(db: Db, id: nat): seq<string>
    requires id in db.servers
  {
    Unclaimed(db.claims, RestoredKeys(db.servers[id].iconUrl))
  }

  function MessageReferences(db: Db, ids: set<nat>): set<Reference>
    requires ids <= db.messages.Keys
  {
    set id, k | id in ids && k in MessageKeys(db, id) :: Reference(MessageOwner(id), k)
  }

  function DirectMessageReferences(db: Db, ids: set<nat>): set<Reference>
    requires ids <= db.directMessages.Keys
  {
    set id, k | id in ids && k in DirectMessageKeys(db, id) :: Reference(DmOwner(id), k)
  }

  function AvatarReferences(db: Db, users: set<Identity>): set<Reference>
    requires users <= db.users.Keys
  {
    set u, k | u in users && k in AvatarKeys(db, u) :: Reference(AvatarOwner(db.users[u].username), k)
  }

  function IconReferences(db: Db, ids: set<nat>): set<Reference>
    requires ids <= db.servers.Keys
  {
    set id, k | id in ids && k in IconKeys(db, id) :: Reference(IconOwner(id), k)
  }

  /** The references of all rows, as a rebuild reads them. */
  function Rebuilt(db: Db): set<Reference> {
    MessageReferences(db, db.messages.Keys) + DirectMessageReferences(db, db.directMessages.Keys)
    + AvatarReferences(db, db.users.Keys) + IconReferences(db, db.servers.Keys)
  }

  /** `rebuild_storage_references` */
  function Rebuild(db: Db, now: Micros, caller: Identity): Result<Db, Error>
    requires Realistic(now)
  {
    if !IsAdmin(db, caller) then Err(AdminRequired)
    else if IsReady(db) then Ok(db)
    else if db.fence.Some? && InitTime(now, db.fence.value).Some? then
      Err(FreshlyInitialized)
    else if db.fence.Some? && !QuietOver(now, db.fence.value) then
      Err(RestoreInProgress)
    else Ok(db.(references := Rebuilt(db), ready := Some(true)))
  }

  /** `release_storage_init_fence` */
  function Release(db: Db, now: Micros, caller: Identity, oldestObject: Option<Micros>): Result<Db, Error>
    requires Realistic(now)
  {
    if !IsAdmin(db, caller) then Err(AdminRequired)
    else if db.fence.None? || InitTime(now, db.fence.value).None? then Ok(db)
    else if oldestObject.Some? && oldestObject.value < InitTime(now, db.fence.value).value then
      Err(ObjectsPredateDatabase)
    else Ok(db.(fence := None))
  }

  predicate IsHexDigit(c: char) {
    '0' <= c <= '9' || 'a' <= c <= 'f' || 'A' <= c <= 'F'
  }

  predicate IsBatchId(batchId: string) {
    |batchId| == 32 && forall c :: c in batchId ==> IsHexDigit(c)
  }

  const MAX_CLAIM_BATCH := 500

  /** The submitted keys nothing refers to get a tombstone; an older tombstone moves to this batch. */
  function Claimed(claims: map<string, Claim>, references: set<Reference>, now: Micros, batchId: string,
                   keys: seq<string>): map<string, Claim>
  {
    claims + map k | k in keys && !Referenced(references, k) ::
      Claim(if k in claims then claims[k].claimedAt else now, batchId)
  }

  /** `claim_unreferenced_storage` */
  function ClaimUnreferenced(db: Db, now: Micros, caller: Identity, batchId: string, keys: seq<string>)
    : Result<Db, Error>
  {
    if !IsAdmin(db, caller) then Err(AdminRequired)
    else if !IsBatchId(batchId) then Err(InvalidBatchId)
    else if |keys| > MAX_CLAIM_BATCH then Err(TooManyKeys)
    else if !IsReady(db) then Err(NotReady)
    else
      Ok(db.(batches := db.batches[caller := batchId], claims := Claimed(db.claims, db.references, now, batchId, keys)))
  }

  datatype ClaimRow = ClaimRow(storageKey: string, claimedAt: Micros, batchId: string)

  const SENTINEL := "__letschat_cleanup_authorized__"

  /** `storage_deletion_claims_for_cleanup` */
  function CleanupView(db: Db, who: Identity): set<ClaimRow> {
    if !IsAdmin(db, who) || !IsReady(db) || who !in db.batches then {}
    else
      {ClaimRow(SENTINEL, 0, db.batches[who])} +
      set k | k in db.claims && db.claims[k].batchId == db.batches[who] ::
        ClaimRow(k, db.claims[k].claimedAt, db.claims[k].batchId)
  }
}
