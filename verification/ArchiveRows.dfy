/**
  The archived tables and the two column maps: what the replication writes for
  a row, and what the rebuild reads back from the columns.
*/
module ArchiveRows {
  import opened Wrappers
  import opened Text
  import opened Fence

  /** An account identity, by the hexadecimal text the archive stores. */
  datatype Identity = Identity(hex: string)

  newtype U64 = x: int | 0 <= x < 0x1_0000_0000_0000_0000
  newtype U32 = x: int | 0 <= x < 0x1_0000_0000
  newtype I64 = x: int | -0x8000_0000_0000_0000 <= x < 0x8000_0000_0000_0000

  datatype InvitePolicy = ModeratorsOnly | Everyone
  datatype Role = Member | Moderator | Owner
  datatype ChannelKind = TextChannel | VoiceChannel | AnnouncementChannel
  datatype DmInviteStatus = PendingInvite | AcceptedInvite | DeclinedInvite
  datatype FriendStatus = PendingFriend | AcceptedFriend

  datatype Table =
    | Users | Servers | Members | Bans | JoinRequests | Invites | DmServerInvites
    | Channels | Messages | DirectMessages | Friends | Blocks | ReadStates | PinnedMessages

  datatype Row =
    | User(identity: Identity, username: string, displayName: string, avatarUrl: Option<string>,
           createdAt: Micros, isAdmin: bool, suspended: bool, minTokenGeneration: U64)
    | Server(id: U64, name: string, ownerIdentity: Identity, invitePolicy: InvitePolicy, iconUrl: Option<string>,
             createdAt: Micros, isDiscoverable: bool, description: Option<string>, tags: Option<seq<string>>)
    | ServerMember(memberKey: string, serverId: U64, userIdentity: Identity, role: Role,
                   joinedAt: Micros, timeoutUntil: Option<Micros>)
    | Ban(banKey: string, serverId: U64, userIdentity: Identity, bannedBy: Identity,
          reason: Option<string>, bannedAt: Micros)
    | JoinRequest(requestKey: string, serverId: U64, userIdentity: Identity, createdAt: Micros, declined: bool)
    | Invite(token: string, serverId: U64, createdBy: Identity, expiresAt: Micros,
             maxUses: Option<U32>, useCount: U32, allowedUsernames: seq<string>)
    | DmServerInvite(id: U64, serverId: U64, inviteToken: string, sender: Identity, recipient: Identity,
                     inviteStatus: DmInviteStatus, createdAt: Micros)
    | Channel(id: U64, serverId: U64, name: string, kind: ChannelKind, position: U32,
              moderatorOnly: bool, section: Option<string>)
    | Message(id: U64, channelId: U64, sender: Identity, content: string, sentAt: Micros,
              editedAt: Option<Micros>, deleted: bool)
    | DirectMessage(id: U64, sender: Identity, recipient: Identity, content: string, sentAt: Micros,
                    editedAt: Option<Micros>, deletedBySender: bool, deletedByRecipient: bool)
    | Friend(pairKey: string, userA: Identity, userB: Identity, status: FriendStatus,
             requestedBy: Identity, updatedAt: Micros)
    | Block(blockKey: string, blocker: Identity, blocked: Identity, createdAt: Micros)
    | ReadState(readKey: string, scopeKey: string, userIdentity: Identity, lastReadAt: Micros, updatedAt: Micros)
    | PinnedMessage(pinId: U64, channelId: U64, messageId: U64, pinnedBy: Identity, pinnedAt: Micros)

  function TableOf(row: Row): Table {
    match row
    case User(_, _, _, _, _, _, _, _) => Users
    case Server(_, _, _, _, _, _, _, _, _) => Servers
    case ServerMember(_, _, _, _, _, _) => Members
    case Ban(_, _, _, _, _, _) => Bans
    case JoinRequest(_, _, _, _, _) => JoinRequests
    case Invite(_, _, _, _, _, _, _) => Invites
    case DmServerInvite(_, _, _, _, _, _, _) => DmServerInvites
    case Channel(_, _, _, _, _, _, _) => Channels
    case Message(_, _, _, _, _, _, _) => Messages
    case DirectMessage(_, _, _, _, _, _, _, _) => DirectMessages
    case Friend(_, _, _, _, _, _) => Friends
    case Block(_, _, _, _) => Blocks
    case ReadState(_, _, _, _, _) => ReadStates
    case PinnedMessage(_, _, _, _, _) => PinnedMessages
  }

  // ------------------------------------------------------------- column values

  /** What one archive column can hold. */
  datatype Value = Null | Str(s: string) | Long(n: I64) | Bool(b: bool) | Strs(ss: seq<string>)

  /** `(long)` of an unsigned 64-bit id. */
  function Signed(x: U64): I64 {
    if x < 0x8000_0000_0000_0000 then x as I64 else (x as int - 0x1_0000_0000_0000_0000) as I64
  }

  /** `(ulong)` of a stored id. */
  function Unsigned(n: I64): U64 {
    if n >= 0 then n as U64 else (n as int + 0x1_0000_0000_0000_0000) as U64
  }

  /** `(uint)` of a stored counter keeps the low 32 bits. */
  function Truncated(n: I64): U32 {
    (n as int % 0x1_0000_0000) as U32
  }

  function OfId(x: U64): Value { Long(Signed(x)) }
  function OfCount(w: U32): Value { Long(w as I64) }
  function OfTime(t: Micros): Value { Long(t as I64) }
  function OfIdentity(i: Identity): Value { Str(i.hex) }
  function OfOptionalTime(t: Option<Micros>): Value { if t.Some? then OfTime(t.value) else Null }
  function OfOptionalCount(w: Option<U32>): Value { if w.Some? then OfCount(w.value) else Null }
  function OfOptionalString(s: Option<string>): Value { if s.Some? then Str(s.value) else Null }
  function OfOptionalStrings(ss: Option<seq<string>>): Value { if ss.Some? then Strs(ss.value) else Null }

  function OfInvitePolicy(p: InvitePolicy): Value {
    Str(match p case ModeratorsOnly => "ModeratorsOnly" case Everyone => "Everyone")
  }

  function OfRole(r: Role): Value {
    Str(match r case Member => "Member" case Moderator => "Moderator" case Owner => "Owner")
  }

  function OfKind(k: ChannelKind): Value {
    Str(match k case TextChannel => "Text" case VoiceChannel => "Voice" case AnnouncementChannel => "Announcement")
  }

  function OfInviteStatus(s: DmInviteStatus): Value {
    Str(match s case PendingInvite => "Pending" case AcceptedInvite => "Accepted" case DeclinedInvite => "Declined")
  }

  function OfFriendStatus(s: FriendStatus): Value {
    Str(match s case PendingFriend => "Pending" case AcceptedFriend => "Accepted")
  }

  /** The replication's forward column map, in the order of the archive's columns. */
  function Encode(row: Row): (columns: seq<Value>)
    ensures |columns| > 0
  {
    match row
    case User(identity, username, displayName, avatarUrl, createdAt, isAdmin, _, _) =>
      [OfIdentity(identity), Str(username), Str(displayName), OfOptionalString(avatarUrl), OfTime(createdAt),
       Bool(isAdmin)]
    case Server(id, name, owner, policy, iconUrl, createdAt, isDiscoverable, description, tags) =>
      [OfId(id), Str(name), OfIdentity(owner), OfInvitePolicy(policy), OfOptionalString(iconUrl), OfTime(createdAt),
       Bool(isDiscoverable), OfOptionalString(description), OfOptionalStrings(tags)]
    case ServerMember(key, server, user, role, joinedAt, timeoutUntil) =>
      [Str(key), OfId(server), OfIdentity(user), OfRole(role), OfTime(joinedAt), OfOptionalTime(timeoutUntil)]
    case Ban(key, server, user, bannedBy, reason, bannedAt) =>
      [Str(key), OfId(server), OfIdentity(user), OfIdentity(bannedBy), OfOptionalString(reason), OfTime(bannedAt)]
    case JoinRequest(key, server, user, createdAt, declined) =>
      [Str(key), OfId(server), OfIdentity(user), OfTime(createdAt), Bool(declined)]
    case Invite(token, server, createdBy, expiresAt, maxUses, useCount, allowed) =>
      [Str(token), OfId(server), OfIdentity(createdBy), OfTime(expiresAt), OfOptionalCount(maxUses), OfCount(useCount),
       Strs(allowed)]
    case DmServerInvite(id, server, token, sender, recipient, status, createdAt) =>
      [OfId(id), OfId(server), Str(token), OfIdentity(sender), OfIdentity(recipient), OfInviteStatus(status),
       OfTime(createdAt)]
    case Channel(id, server, name, kind, position, moderatorOnly, section) =>
      [OfId(id), OfId(server), Str(name), OfKind(kind), OfCount(position), Bool(moderatorOnly),
       OfOptionalString(section)]
    case Message(id, channel, sender, content, sentAt, editedAt, deleted) =>
      [OfId(id), OfId(channel), OfIdentity(sender), Str(content), OfTime(sentAt), OfOptionalTime(editedAt),
       Bool(deleted)]
    case DirectMessage(id, sender, recipient, content, sentAt, editedAt, bySender, byRecipient) =>
      [OfId(id), OfIdentity(sender), OfIdentity(recipient), Str(content), OfTime(sentAt), OfOptionalTime(editedAt),
       Bool(bySender), Bool(byRecipient)]
    case Friend(key, a, b, status, requestedBy, updatedAt) =>
      [Str(key), OfIdentity(a), OfIdentity(b), OfFriendStatus(status), OfIdentity(requestedBy), OfTime(updatedAt)]
    case Block(key, blocker, blocked, createdAt) =>
      [Str(key), OfIdentity(blocker), OfIdentity(blocked), OfTime(createdAt)]
    case ReadState(key, scope, user, lastReadAt, updatedAt) =>
      [Str(key), Str(scope), OfIdentity(user), OfTime(lastReadAt), OfTime(updatedAt)]
    case PinnedMessage(id, channel, message, pinnedBy, pinnedAt) =>
      [OfId(id), OfId(channel), OfId(message), OfIdentity(pinnedBy), OfTime(pinnedAt)]
  }

  // ----------------------------------------------------------- reading it back

  // A reader cast or an enum name that does not fit raises: every decoder is partial.

  function ToString(v: Value): Option<string> { if v.Str? then Some(v.s) else None }
  function ToBool(v: Value): Option<bool> { if v.Bool? then Some(v.b) else None }
  function ToId(v: Value): Option<U64> { if v.Long? then Some(Unsigned(v.n)) else None }
  function ToCount(v: Value): Option<U32> { if v.Long? then Some(Truncated(v.n)) else None }
  function ToTime(v: Value): Option<Micros> { if v.Long? then Some(v.n as Micros) else None }
  function ToIdentity(v: Value): Option<Identity> { if v.Str? then Some(Identity(v.s)) else None }

  function ToOptional<A>(v: Value, f: Value -> Option<A>): Option<Option<A>> {
    if v.Null? then Some(None) else if f(v).Some? then Some(f(v)) else None
  }

  function ToStrings(v: Value): Option<seq<string>> { if v.Strs? then Some(v.ss) else None }

  function ToInvitePolicy(v: Value): Option<InvitePolicy> {
    if v == Str("ModeratorsOnly") then Some(ModeratorsOnly) else if v == Str("Everyone") then Some(Everyone) else None
  }

  function ToRole(v: Value): Option<Role> {
    if v == Str("Member") then Some(Member) else if v == Str("Moderator") then Some(Moderator)
    else if v == Str("Owner") then Some(Owner) else None
  }

  function ToKind(v: Value): Option<ChannelKind> {
    if v == Str("Text") then Some(TextChannel) else if v == Str("Voice") then Some(VoiceChannel)
    else if v == Str("Announcement") then Some(AnnouncementChannel) else None
  }

  function ToInviteStatus(v: Value): Option<DmInviteStatus> {
    if v == Str("Pending") then Some(PendingInvite) else if v == Str("Accepted") then Some(AcceptedInvite)
    else if v == Str("Declined") then Some(DeclinedInvite) else None
  }

  function ToFriendStatus(v: Value): Option<FriendStatus> {
    if v == Str("Pending") then Some(PendingFriend) else if v == Str("Accepted") then Some(AcceptedFriend) else None
  }

  /** How many columns the rebuild selects. */
  function Width(t: Table): nat {
    match t
    case Users => 6
    case Servers => 9
    case Members => 6
    case Bans => 6
    case JoinRequests => 5
    case Invites => 7
    case DmServerInvites => 7
    case Channels => 7
    case Messages => 7
    case DirectMessages => 8
    case Friends => 6
    case Blocks => 4
    case ReadStates => 5
    case PinnedMessages => 5
  }

  /** The rebuild's reverse column map. */
  function Decode(t: Table, c: seq<Value>): Option<Row> {
    if |c| != Width(t) then None else
    match t
    case Users => DecodeUser(c)
    case Servers => DecodeServer(c)
    case Members => DecodeMember(c)
    case Bans => DecodeBan(c)
    case JoinRequests => DecodeJoinRequest(c)
    case Invites => DecodeInvite(c)
    case DmServerInvites => DecodeDmServerInvite(c)
    case Channels => DecodeChannel(c)
    case Messages => DecodeMessage(c)
    case DirectMessages => DecodeDirectMessage(c)
    case Friends => DecodeFriend(c)
    case Blocks => DecodeBlock(c)
    case ReadStates => DecodeReadState(c)
    case PinnedMessages => DecodePinnedMessage(c)
  }

  function DecodeMember(c: seq<Value>): Option<Row>
    requires |c| == Width(Members)
  {
    var key :- ToString(c[0]);
    var server :- ToId(c[1]);
    var user :- ToIdentity(c[2]);
    var role :- ToRole(c[3]);
    var joinedAt :- ToTime(c[4]);
    var timeoutUntil :- ToOptional(c[5], ToTime);
    Some(ServerMember(key, server, user, role, joinedAt, timeoutUntil))
  }

  function DecodeBan(c: seq<Value>): Option<Row>
    requires |c| == Width(Bans)
  {
    var key :- ToString(c[0]);
    var server :- ToId(c[1]);
    var user :- ToIdentity(c[2]);
    var bannedBy :- ToIdentity(c[3]);
    var reason :- ToOptional(c[4], ToString);
    var bannedAt :- ToTime(c[5]);
    Some(Ban(key, server, user, bannedBy, reason, bannedAt))
  }

  function DecodeJoinRequest(c: seq<Value>): Option<Row>
    requires |c| == Width(JoinRequests)
  {
    var key :- ToString(c[0]);
    var server :- ToId(c[1]);
    var user :- ToIdentity(c[2]);
    var createdAt :- ToTime(c[3]);
    var declined :- ToBool(c[4]);
    Some(JoinRequest(key, server, user, createdAt, declined))
  }

  function DecodeDmServerInvite(c: seq<Value>): Option<Row>
    requires |c| == Width(DmServerInvites)
  {
    var id :- ToId(c[0]);
    var server :- ToId(c[1]);
    var token :- ToString(c[2]);
    var sender :- ToIdentity(c[3]);
    var recipient :- ToIdentity(c[4]);
    var status :- ToInviteStatus(c[5]);
    var createdAt :- ToTime(c[6]);
    Some(DmServerInvite(id, server, token, sender, recipient, status, createdAt))
  }

  function DecodeChannel(c: seq<Value>): Option<Row>
    requires |c| == Width(Channels)
  {
    var id :- ToId(c[0]);
    var server :- ToId(c[1]);
    var name :- ToString(c[2]);
    var kind :- ToKind(c[3]);
    var position :- ToCount(c[4]);
    var moderatorOnly :- ToBool(c[5]);
    var section :- ToOptional(c[6], ToString);
    Some(Channel(id, server, name, kind, position, moderatorOnly, section))
  }

  function DecodeMessage(c: seq<Value>): Option<Row>
    requires |c| == Width(Messages)
  {
    var id :- ToId(c[0]);
    var channel :- ToId(c[1]);
    var sender :- ToIdentity(c[2]);
    var content :- ToString(c[3]);
    var sentAt :- ToTime(c[4]);
    var editedAt :- ToOptional(c[5], ToTime);
    var deleted :- ToBool(c[6]);
    Some(Message(id, channel, sender, content, sentAt, editedAt, deleted))
  }

  function DecodeFriend(c: seq<Value>): Option<Row>
    requires |c| == Width(Friends)
  {
    var key :- ToString(c[0]);
    var a :- ToIdentity(c[1]);
    var b :- ToIdentity(c[2]);
    var status :- ToFriendStatus(c[3]);
    var requestedBy :- ToIdentity(c[4]);
    var updatedAt :- ToTime(c[5]);
    Some(Friend(key, a, b, status, requestedBy, updatedAt))
  }

  function DecodeBlock(c: seq<Value>): Option<Row>
    requires |c| == Width(Blocks)
  {
    var key :- ToString(c[0]);
    var blocker :- ToIdentity(c[1]);
    var blocked :- ToIdentity(c[2]);
    var createdAt :- ToTime(c[3]);
    Some(Block(key, blocker, blocked, createdAt))
  }

  function DecodeReadState(c: seq<Value>): Option<Row>
    requires |c| == Width(ReadStates)
  {
    var key :- ToString(c[0]);
    var scope :- ToString(c[1]);
    var user :- ToIdentity(c[2]);
    var lastReadAt :- ToTime(c[3]);
    var updatedAt :- ToTime(c[4]);
    Some(ReadState(key, scope, user, lastReadAt, updatedAt))
  }

  function DecodePinnedMessage(c: seq<Value>): Option<Row>
    requires |c| == Width(PinnedMessages)
  {
    var id :- ToId(c[0]);
    var channel :- ToId(c[1]);
    var message :- ToId(c[2]);
    var pinnedBy :- ToIdentity(c[3]);
    var pinnedAt :- ToTime(c[4]);
    Some(PinnedMessage(id, channel, message, pinnedBy, pinnedAt))
  }

  /** The two columns the archive does not hold come back as their defaults. */
  function DecodeUser(c: seq<Value>): Option<Row>
    requires |c| == Width(Users)
  {
    var identity :- ToIdentity(c[0]);
    var username :- ToString(c[1]);
    var displayName :- ToString(c[2]);
    var avatarUrl :- ToOptional(c[3], ToString);
    var createdAt :- ToTime(c[4]);
    var isAdmin :- ToBool(c[5]);
    Some(User(identity, username, displayName, avatarUrl, createdAt, isAdmin, false, 0))
  }

  function DecodeServer(c: seq<Value>): Option<Row>
    requires |c| == Width(Servers)
  {
    var id :- ToId(c[0]);
    var name :- ToString(c[1]);
    var owner :- ToIdentity(c[2]);
    var policy :- ToInvitePolicy(c[3]);
    var iconUrl :- ToOptional(c[4], ToString);
    var createdAt :- ToTime(c[5]);
    var isDiscoverable :- ToBool(c[6]);
    var description :- ToOptional(c[7], ToString);
    var tags :- ToOptional(c[8], ToStrings);
    Some(Server(id, name, owner, policy, iconUrl, createdAt, isDiscoverable, description, tags))
  }

  /** A missing list of allowed names reads as empty. */
  function DecodeInvite(c: seq<Value>): Option<Row>
    requires |c| == Width(Invites)
  {
    var token :- ToString(c[0]);
    var server :- ToId(c[1]);
    var createdBy :- ToIdentity(c[2]);
    var expiresAt :- ToTime(c[3]);
    var maxUses :- ToOptional(c[4], ToCount);
    var useCount :- ToCount(c[5]);
    var allowed :- ToOptional(c[6], ToStrings);
    Some(Invite(token, server, createdBy, expiresAt, maxUses, useCount, if allowed.Some? then allowed.value else []))
  }

  function DecodeDirectMessage(c: seq<Value>): Option<Row>
    requires |c| == Width(DirectMessages)
  {
    var id :- ToId(c[0]);
    var sender :- ToIdentity(c[1]);
    var recipient :- ToIdentity(c[2]);
    var content :- ToString(c[3]);
    var sentAt :- ToTime(c[4]);
    var editedAt :- ToOptional(c[5], ToTime);
    var bySender :- ToBool(c[6]);
    var byRecipient :- ToBool(c[7]);
    Some(DirectMessage(id, sender, recipient, content, sentAt, editedAt, bySender, byRecipient))
  }

  // ------------------------------------------------------------- the round trip

  /** What of a row the archive keeps. */
  function Archived(row: Row): Row {
    if row.User? then row.(suspended := false, minTokenGeneration := 0) else row
  }

  /** The reverse map gives back every archived column of every row of every table. */
  lemma DecodeInvertsEncode(row: Row)
    ensures Decode(TableOf(row), Encode(row)) == Some(Archived(row))
  {
    if row.Server? {
      ServerRoundTrip(row);
    } else if row.Channel? {
      ChannelRoundTrip(row);
    } else if row.DmServerInvite? {
      DmServerInviteRoundTrip(row);
    } else if row.Message? || row.DirectMessage? || row.PinnedMessage? {
      HistoryRoundTrip(row);
    } else if row.User? || row.ServerMember? || row.Friend? {
      AccountRoundTrip(row);
    } else {
      NamedRoundTrip(row);
    }
  }

  lemma ServerRoundTrip(row: Row)
    requires row.Server?
    ensures Decode(TableOf(row), Encode(row)) == Some(Archived(row))
  {
  }

  lemma ChannelRoundTrip(row: Row)
    requires row.Channel?
    ensures Decode(TableOf(row), Encode(row)) == Some(Archived(row))
  {
  }

  lemma DmServerInviteRoundTrip(row: Row)
    requires row.DmServerInvite?
    ensures Decode(TableOf(row), Encode(row)) == Some(Archived(row))
  {
  }

  lemma HistoryRoundTrip(row: Row)
    requires row.Message? || row.DirectMessage? || row.PinnedMessage?
    ensures Decode(TableOf(row), Encode(row)) == Some(Archived(row))
  {
  }

  lemma AccountRoundTrip(row: Row)
    requires row.User? || row.ServerMember? || row.Friend?
    ensures Decode(TableOf(row), Encode(row)) == Some(Archived(row))
  {
  }

  lemma NamedRoundTrip(row: Row)
    requires row.Ban? || row.JoinRequest? || row.Invite? || row.Block? || row.ReadState?
    ensures Decode(TableOf(row), Encode(row)) == Some(Archived(row))
  {
  }

  /** A row survives the archive unchanged exactly when it carries no lockout and no token floor. */
  lemma RoundTripIsIdentityIff(row: Row)
    ensures Decode(TableOf(row), Encode(row)) == Some(row) <==>
      (row.User? ==> !row.suspended && row.minTokenGeneration == 0)
  {
    DecodeInvertsEncode(row);
  }

  // ------------------------------------------------------------------- the keys

  /** Every table has a key of one column. */
  function PrimaryKey(row: Row): Value {
    match row
    case User(identity, _, _, _, _, _, _, _) => OfIdentity(identity)
    case Server(id, _, _, _, _, _, _, _, _) => OfId(id)
    case ServerMember(key, _, _, _, _, _) => Str(key)
    case Ban(key, _, _, _, _, _) => Str(key)
    case JoinRequest(key, _, _, _, _) => Str(key)
    case Invite(token, _, _, _, _, _, _) => Str(token)
    case DmServerInvite(id, _, _, _, _, _, _) => OfId(id)
    case Channel(id, _, _, _, _, _, _) => OfId(id)
    case Message(id, _, _, _, _, _, _) => OfId(id)
    case DirectMessage(id, _, _, _, _, _, _, _) => OfId(id)
    case Friend(key, _, _, _, _, _) => Str(key)
    case Block(key, _, _, _) => Str(key)
    case ReadState(key, _, _, _, _) => Str(key)
    case PinnedMessage(id, _, _, _, _) => OfId(id)
  }

  predicate HasIdKey(t: Table) {
    t in {Servers, DmServerInvites, Channels, Messages, DirectMessages, PinnedMessages}
  }

  predicate FitsKey(t: Table, key: Value) {
    if HasIdKey(t) then key.Long? else key.Str?
  }

  /** The key is the first archived column, and typed as its table says. */
  lemma PrimaryKeyFits(row: Row)
    ensures FitsKey(TableOf(row), PrimaryKey(row)) && Encode(row)[0] == PrimaryKey(row)
  {
  }

  function SignedDecimal(n: int): (r: string)
    ensures |r| > 0 && (r[0] == '-' <==> n < 0)
  {
    var digits := Decimal(if n < 0 then -n else n);
    assert digits[0] in digits;
    if n < 0 then "-" + digits else digits
  }

  /** `ReconcileRequest.KeyOf` of a key of one column. */
  function KeyOf(key: Value): string {
    match key
    case Null => "\0"
    case Long(n) => SignedDecimal(n as int)
    case Str(s) => s
    case Bool(b) => if b then "True" else "False"
    case Strs(_) => "System.String[]"
  }

  /** Within a table the text of a key names the key. */
  lemma KeyOfIsInjective(t: Table, k: Value, l: Value)
    requires FitsKey(t, k) && FitsKey(t, l) && KeyOf(k) == KeyOf(l)
    ensures k == l
  {
    if k.Long? {
      var m, n := k.n as int, l.n as int;
      if m < 0 {
        assert SignedDecimal(m)[1..] == Decimal(-m) && SignedDecimal(n)[1..] == Decimal(-n);
        DecimalIsInjective(-m, -n);
      } else {
        DecimalIsInjective(m, n);
      }
    }
  }
}
