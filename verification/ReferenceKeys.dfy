/** Owner keys, reference keys and the grammar of storage keys. */
module ReferenceKeys {
  import opened Text

  /** The rows that can list stored objects. */
  datatype Owner =
    | MessageOwner(id: nat)
    | DmOwner(id: nat)
    | AvatarOwner(username: string)
    | IconOwner(id: nat)

  predicate IsWordChar(c: char) {
    ('a' <= c <= 'z') || ('A' <= c <= 'Z') || ('0' <= c <= '9') || c == '_'
  }

  predicate IsValidUsername(name: string) {
    2 <= |name| <= 32 && forall c :: c in name ==> IsWordChar(c)
  }

  const MODULE_OWNER := "@module-owner"

  /** The names a user row can have: accepted at registration, or the one `init` reserves. */
  predicate IsAccountName(name: string) {
    IsValidUsername(name) || name == MODULE_OWNER
  }

  predicate IsOwner(o: Owner) {
    o.AvatarOwner? ==> IsAccountName(o.username)
  }

  function OwnerKind(o: Owner): string {
    match o
    case MessageOwner(_) => "message"
    case DmOwner(_) => "dm"
    case AvatarOwner(_) => "avatar"
    case IconOwner(_) => "icon"
  }

  function OwnerName(o: Owner): string {
    match o
    case MessageOwner(id) => Decimal(id)
    case DmOwner(id) => Decimal(id)
    case AvatarOwner(username) => username
    case IconOwner(id) => Decimal(id)
  }

  function OwnerKey(o: Owner): string {
    OwnerKind(o) + ":" + OwnerName(o)
  }

  function ReferenceKey(ownerKey: string, storageKey: string): string {
    ownerKey + ":" + storageKey
  }

  /** An owner key names its owner, whatever characters a user name contains. */
  lemma OwnerKeyIsInjective(o: Owner, p: Owner)
    requires OwnerKey(o) == OwnerKey(p)
    ensures o == p
  {
    KindsDiffer(o, p);
    CutAtColon(OwnerKind(o), OwnerName(o), OwnerKind(p), OwnerName(p));
    if !o.AvatarOwner? {
      DecimalIsInjective(o.id, p.id);
    }
  }

  lemma KindsDiffer(o: Owner, p: Owner)
    ensures ColonFree(OwnerKind(o)) && ColonFree(OwnerKind(p))
    ensures OwnerKind(o) == OwnerKind(p) ==>
      (o.MessageOwner? <==> p.MessageOwner?) && (o.DmOwner? <==> p.DmOwner?) &&
      (o.AvatarOwner? <==> p.AvatarOwner?) && (o.IconOwner? <==> p.IconOwner?)
  {
    assert "message"[0] == 'm' && "dm"[0] == 'd' && "avatar"[0] == 'a' && "icon"[0] == 'i';
  }

  lemma NamesHaveNoColon(o: Owner)
    requires IsOwner(o)
    ensures ColonFree(OwnerName(o))
  {
  }

  lemma CutTwice(a: string, m: string, x: string, b: string, n: string, y: string)
    requires ColonFree(a) && ColonFree(b) && ColonFree(m) && ColonFree(n)
    requires a + ":" + m + ":" + x == b + ":" + n + ":" + y
    ensures a == b && m == n && x == y
  {
    assert a + ":" + m + ":" + x == a + ":" + (m + ":" + x);
    assert b + ":" + n + ":" + y == b + ":" + (n + ":" + y);
    CutAtColon(a, m + ":" + x, b, n + ":" + y);
    CutAtColon(m, x, n, y);
  }

  /**
    A reference key names its owner and its storage key: two references never
    share a primary key, whatever characters their storage keys contain.
  */
  lemma ReferenceKeyIsInjective(o: Owner, k: string, p: Owner, l: string)
    requires IsOwner(o) && IsOwner(p)
    requires ReferenceKey(OwnerKey(o), k) == ReferenceKey(OwnerKey(p), l)
    ensures o == p && k == l
  {
    KindsDiffer(o, p);
    NamesHaveNoColon(o);
    NamesHaveNoColon(p);
    CutTwice(OwnerKind(o), OwnerName(o), k, OwnerKind(p), OwnerName(p), l);
    OwnerKeyIsInjective(o, p);
  }

  // ---------------------------------------------------------- storage keys

  const UPLOADS := "uploads/"

  predicate IsChannelKey(key: string, channel: nat, uploader: string) {
    var p := Split(key);
    |p| == 5 && p[0] == "uploads" && p[1] == "ch" && p[2] == Decimal(channel) && p[3] == uploader && p[4] != ""
  }

  predicate IsDmKey(key: string, uploader: string, partner: string) {
    var p := Split(key);
    |p| == 5 && p[0] == "uploads" && p[1] == "dm" && p[2] == uploader && p[3] == partner && p[4] != ""
  }

  predicate IsAvatarKey(key: string, uploader: string) {
    var p := Split(key);
    |p| == 4 && p[0] == "uploads" && p[1] == "avatar" && p[2] == uploader && p[3] != ""
  }

  predicate IsIconKey(key: string, server: nat, uploader: string) {
    var p := Split(key);
    |p| == 5 && p[0] == "uploads" && p[1] == "icon" && p[2] == Decimal(server) && p[3] == uploader && p[4] != ""
  }

  predicate IsLegacyKey(key: string, uploader: string) {
    var p := Split(key);
    && |p| == 6 && p[0] == "uploads" && |p[1]| == 4 && (forall c :: c in p[1] ==> '0' <= c <= '9')
    && p[4] == uploader && p[5] != ""
  }

  /** Where a storage key may be attached, read off the key alone. */
  datatype Scope =
    | ChannelScope(channel: nat, uploader: string)
    | DmScope(uploader: string, partner: string)
    | AvatarScope(uploader: string)
    | IconScope(server: nat, uploader: string)
    | LegacyScope(uploader: string)

  predicate Admits(scope: Scope, key: string) {
    match scope
    case ChannelScope(channel, uploader) => IsChannelKey(key, channel, uploader)
    case DmScope(uploader, partner) => IsDmKey(key, uploader, partner)
    case AvatarScope(uploader) => IsAvatarKey(key, uploader)
    case IconScope(server, uploader) => IsIconKey(key, server, uploader)
    case LegacyScope(uploader) => IsLegacyKey(key, uploader)
  }

  // ------------------------------------------------------------- minting a key

  /** The folder of a legacy key: year, month and day of the upload. */
  datatype Folder = Folder(year: string, month: string, day: string)

  predicate IsFolder(f: Folder) {
    |f.year| == 4 && (forall c :: c in f.year ==> '0' <= c <= '9') && SlashFree(f.month) && SlashFree(f.day)
  }

  predicate IsFile(file: string) {
    file != "" && SlashFree(file)
  }

  /** The names a key carries as path segments. */
  predicate HasPlainNames(scope: Scope) {
    SlashFree(scope.uploader) && (scope.DmScope? ==> SlashFree(scope.partner))
  }

  /** `StorageKey.Build`, after its checks: the key the upload service gives a new object. */
  function Minted(scope: Scope, folder: Folder, file: string): string {
    match scope
    case ChannelScope(channel, uploader) => "uploads/ch/" + Decimal(channel) + "/" + uploader + "/" + file
    case DmScope(uploader, partner) => "uploads/dm/" + uploader + "/" + partner + "/" + file
    case AvatarScope(uploader) => "uploads/avatar/" + uploader + "/" + file
    case IconScope(server, uploader) => "uploads/icon/" + Decimal(server) + "/" + uploader + "/" + file
    case LegacyScope(uploader) =>
      "uploads/" + folder.year + "/" + folder.month + "/" + folder.day + "/" + uploader + "/" + file
  }

  function Segments(scope: Scope, folder: Folder, file: string): seq<string> {
    match scope
    case ChannelScope(channel, uploader) => ["uploads", "ch", Decimal(channel), uploader, file]
    case DmScope(uploader, partner) => ["uploads", "dm", uploader, partner, file]
    case AvatarScope(uploader) => ["uploads", "avatar", uploader, file]
    case IconScope(server, uploader) => ["uploads", "icon", Decimal(server), uploader, file]
    case LegacyScope(uploader) => ["uploads", folder.year, folder.month, folder.day, uploader, file]
  }

  lemma JoinFour(a: string, b: string, c: string, d: string)
    ensures Join([a, b, c, d]) == a + "/" + b + "/" + c + "/" + d
  {
    assert [a, b, c, d][1..] == [b, c, d] && [b, c, d][1..] == [c, d] && [c, d][1..] == [d];
    assert Join([c, d]) == c + "/" + d;
    assert Join([b, c, d]) == b + "/" + c + "/" + d;
  }

  lemma JoinFive(a: string, b: string, c: string, d: string, e: string)
    ensures Join([a, b, c, d, e]) == a + "/" + b + "/" + c + "/" + d + "/" + e
  {
    JoinFour(b, c, d, e);
    assert [a, b, c, d, e][1..] == [b, c, d, e];
    assert Join([a, b, c, d, e]) == a + "/" + (b + "/" + c + "/" + d + "/" + e);
  }

  lemma JoinSix(a: string, b: string, c: string, d: string, e: string, f: string)
    ensures Join([a, b, c, d, e, f]) == a + "/" + b + "/" + c + "/" + d + "/" + e + "/" + f
  {
    JoinFive(b, c, d, e, f);
    assert [a, b, c, d, e, f][1..] == [b, c, d, e, f];
    assert Join([a, b, c, d, e, f]) == a + "/" + (b + "/" + c + "/" + d + "/" + e + "/" + f);
  }

  lemma Prefixes()
    ensures "uploads" + "/" == "uploads/"
    ensures "uploads" + "/" + "ch" + "/" == "uploads/ch/"
    ensures "uploads" + "/" + "dm" + "/" == "uploads/dm/"
    ensures "uploads" + "/" + "avatar" + "/" == "uploads/avatar/"
    ensures "uploads" + "/" + "icon" + "/" == "uploads/icon/"
  {
  }

  lemma MintedIsJoin(scope: Scope, folder: Folder, file: string)
    ensures Minted(scope, folder, file) == Join(Segments(scope, folder, file))
  {
    Prefixes();
    match scope
    case ChannelScope(channel, uploader) =>
      FiveSegments("uploads", "ch", "uploads/ch/", Decimal(channel), uploader, file);
    case DmScope(uploader, partner) => FiveSegments("uploads", "dm", "uploads/dm/", uploader, partner, file);
    case AvatarScope(uploader) => JoinFour("uploads", "avatar", uploader, file);
    case IconScope(server, uploader) =>
      FiveSegments("uploads", "icon", "uploads/icon/", Decimal(server), uploader, file);
    case LegacyScope(uploader) => JoinSix("uploads", folder.year, folder.month, folder.day, uploader, file);
  }

  lemma FiveSegments(a: string, b: string, prefix: string, c: string, d: string, e: string)
    requires a + "/" + b + "/" == prefix
    ensures Join([a, b, c, d, e]) == prefix + c + "/" + d + "/" + e
  {
    JoinFive(a, b, c, d, e);
  }

  /**
    The module admits exactly the keys the upload service mints: whatever the
    scope, with any file name that is one path segment, and nothing else.
  */
  lemma AdmittedIffMinted(scope: Scope, key: string)
    ensures Admits(scope, key) <==>
      HasPlainNames(scope) && exists folder, file ::
        IsFolder(folder) && IsFile(file) && key == Minted(scope, folder, file)
  {
    if Admits(scope, key) {
      var folder, file := AdmittedIsMinted(scope, key);
    }
    forall folder, file | HasPlainNames(scope) && IsFolder(folder) && IsFile(file)
      ensures Admits(scope, Minted(scope, folder, file))
    {
      MintedIsAdmitted(scope, folder, file);
    }
  }

  lemma AdmittedIsMinted(scope: Scope, key: string) returns (folder: Folder, file: string)
    requires Admits(scope, key)
    ensures HasPlainNames(scope) && IsFolder(folder) && IsFile(file) && key == Minted(scope, folder, file)
  {
    folder, file := AdmittedSegments(scope, key);
    SplitIff(key, Segments(scope, folder, file));
    MintedIsJoin(scope, folder, file);
  }

  lemma AdmittedSegments(scope: Scope, key: string) returns (folder: Folder, file: string)
    requires Admits(scope, key)
    ensures HasPlainNames(scope) && IsFolder(folder) && IsFile(file) && Split(key) == Segments(scope, folder, file)
  {
    var p := Split(key);
    assert forall i :: 0 <= i < |p| ==> p[i] in p;
    file := p[|p| - 1];
    folder := if |p| == 6 then Folder(p[1], p[2], p[3]) else Folder("0000", "", "");
  }

  lemma MintedIsAdmitted(scope: Scope, folder: Folder, file: string)
    requires HasPlainNames(scope) && IsFolder(folder) && IsFile(file)
    ensures Admits(scope, Minted(scope, folder, file))
  {
    MintedIsJoin(scope, folder, file);
    SplitIff(Minted(scope, folder, file), Segments(scope, folder, file));
  }

  /** No key is admitted in two scopes. A legacy scope names its uploader, but no channel or thread. */
  lemma KeyHasOneScope(key: string, s: Scope, t: Scope)
    requires Admits(s, key) && Admits(t, key)
    ensures s == t
  {
    assert "ch"[0] == 'c' && "dm"[0] == 'd' && "icon"[0] == 'i';
    if s.ChannelScope? && t.ChannelScope? {
      DecimalIsInjective(s.channel, t.channel);
    } else if s.IconScope? && t.IconScope? {
      DecimalIsInjective(s.server, t.server);
    }
  }

  lemma AdmittedKeyIsUpload(key: string, s: Scope)
    requires Admits(s, key)
    ensures StartsWith(key, UPLOADS)
  {
    SplitPrefix(key, "uploads");
    assert "uploads" + "/" == UPLOADS;
  }
}
