/**
  The storage keys a message content lists. What base64 and JSON decoding make
  of the text between the markers is a parameter, `decode`.
*/
module Attachments {
  import opened Wrappers
  import opened Text
  import opened ReferenceKeys

  const MARKER_PREFIX := "[[LC_ATTACHMENTS_V1:"
  const MARKER_SUFFIX := "]]"
  const MAX_ATTACHMENTS := 20
  const PAYLOAD_VERSION := 1

  /** Why the storage reducers refuse a call. */
  datatype Error =
    | InvalidMetadata | InvalidStorageKey | UnknownAccount | Expired
    | WrongMessageKey | WrongAvatarKey | WrongIconKey
    | AdminRequired | FreshlyInitialized | RestoreInProgress | ObjectsPredateDatabase
    | InvalidBatchId | TooManyKeys | NotReady | NoSuchRow | Refused | Taken

  datatype Payload = Payload(version: nat, storageKeys: seq<string>)

  type Decoder = string -> Option<Payload>

  /** Unicode White_Space, which `trim` removes. */
  predicate IsSpace(c: char) {
    || '\t' <= c <= '\r' || c == ' ' || c == '\U{0085}' || c == '\U{00A0}' || c == '\U{1680}'
    || '\U{2000}' <= c <= '\U{200A}' || c == '\U{2028}' || c == '\U{2029}' || c == '\U{202F}'
    || c == '\U{205F}' || c == '\U{3000}'
  }

  function TrimStart(s: string): string {
    if s != "" && IsSpace(s[0]) then TrimStart(s[1..]) else s
  }

  function TrimEnd(s: string): string {
    if s != "" && IsSpace(s[|s| - 1]) then TrimEnd(s[..|s| - 1]) else s
  }

  function Trim(s: string): string {
    TrimEnd(TrimStart(s))
  }

  predicate AllSpace(s: string) {
    forall c :: c in s ==> IsSpace(c)
  }

  lemma {:induction false} TrimStartMeans(s: string)
    ensures exists a :: s == a + TrimStart(s) && AllSpace(a)
    ensures TrimStart(s) != "" ==> !IsSpace(TrimStart(s)[0])
  {
    if s != "" && IsSpace(s[0]) {
      TrimStartMeans(s[1..]);
      var a :| s[1..] == a + TrimStart(s[1..]) && AllSpace(a);
      assert s == ([s[0]] + a) + TrimStart(s);
    } else {
      assert s == "" + TrimStart(s);
    }
  }

  lemma {:induction false} TrimEndMeans(s: string)
    ensures exists b :: s == TrimEnd(s) + b && AllSpace(b)
    ensures TrimEnd(s) != "" ==> !IsSpace(TrimEnd(s)[|TrimEnd(s)| - 1]) && TrimEnd(s)[0] == s[0]
  {
    if s != "" && IsSpace(s[|s| - 1]) {
      TrimEndMeans(s[..|s| - 1]);
      var b :| s[..|s| - 1] == TrimEnd(s[..|s| - 1]) + b && AllSpace(b);
      assert s == TrimEnd(s) + (b + [s[|s| - 1]]);
    } else {
      assert s == TrimEnd(s) + "";
    }
  }

  /** Trimming takes white space off both ends, and all of it. */
  lemma TrimMeans(s: string)
    ensures exists a, b :: s == a + Trim(s) + b && AllSpace(a) && AllSpace(b)
    ensures Trim(s) != "" ==> !IsSpace(Trim(s)[0]) && !IsSpace(Trim(s)[|Trim(s)| - 1])
  {
    TrimStartMeans(s);
    TrimEndMeans(TrimStart(s));
    var a :| s == a + TrimStart(s) && AllSpace(a);
    var b :| TrimStart(s) == Trim(s) + b && AllSpace(b);
    assert s == a + Trim(s) + b;
  }

  predicate IsUpload(key: string) {
    StartsWith(key, UPLOADS)
  }

  predicate NoDuplicates<T(==)>(xs: seq<T>) {
    forall i, j :: 0 <= i < j < |xs| ==> xs[i] != xs[j]
  }

  /** The text between the last marker prefix and the suffix; the last prefix never overlaps the suffix. */
  function Encoded(content: string, start: nat): string
    requires OccursAt(content, start, MARKER_PREFIX) && EndsWith(content, MARKER_SUFFIX)
  {
    assert start + |MARKER_PREFIX| <= |content| - |MARKER_SUFFIX| by {
      MarkersDoNotOverlap(content, start);
    }
    content[start + |MARKER_PREFIX|..|content| - |MARKER_SUFFIX|]
  }

  lemma MarkersDoNotOverlap(content: string, start: nat)
    requires OccursAt(content, start, MARKER_PREFIX) && EndsWith(content, MARKER_SUFFIX)
    ensures start + |MARKER_PREFIX| <= |content| - |MARKER_SUFFIX|
  {
    var last := start + |MARKER_PREFIX| - 1;
    assert content[last] == content[start..start + |MARKER_PREFIX|][|MARKER_PREFIX| - 1] == ':';
    assert content[|content| - 2] == content[|content| - 2..][0] == ']';
    assert content[|content| - 1] == content[|content| - 2..][1] == ']';
  }

  function Trimmed(raw: seq<string>): (r: seq<string>)
    ensures |r| == |raw| && forall i :: 0 <= i < |r| ==> r[i] == Trim(raw[i])
  {
    seq(|raw|, i requires 0 <= i < |raw| => Trim(raw[i]))
  }

  /** Each element once, in the order of first occurrence. */
  function Distinct(keys: seq<string>): (r: seq<string>)
    ensures NoDuplicates(r) && |r| <= |keys|
    ensures forall k :: k in r <==> k in keys
  {
    if keys == [] then []
    else
      var n := |keys| - 1;
      var before := Distinct(keys[..n]);
      if keys[n] in before then before else before + [keys[n]]
  }

  lemma DistinctPush(xs: seq<string>, n: nat)
    requires n < |xs|
    ensures xs[..n + 1] == xs[..n] + [xs[n]]
    ensures Distinct(xs[..n + 1]) == Distinct(xs[..n]) + if xs[n] in xs[..n] then [] else [xs[n]]
  {
    assert xs[..n + 1][..n] == xs[..n];
  }

  /** The keys a content lists: none without a marker, an error for metadata that is not sound. */
  function Keys(decode: Decoder, content: string): (r: Result<seq<string>, Error>)
    ensures r.Ok? ==> NoDuplicates(r.value) && |r.value| <= MAX_ATTACHMENTS
    ensures r.Ok? ==> forall k :: k in r.value ==> IsUpload(k)
  {
    var start := RFind(content, MARKER_PREFIX);
    if start.None? then Ok([])
    else if !EndsWith(content, MARKER_SUFFIX) then Err(InvalidMetadata)
    else
      match decode(Encoded(content, start.value))
      case None => Err(InvalidMetadata)
      case Some(payload) =>
        if payload.version != PAYLOAD_VERSION || |payload.storageKeys| > MAX_ATTACHMENTS then
          Err(InvalidMetadata)
        else if exists k :: k in Trimmed(payload.storageKeys) && !IsUpload(k) then Err(InvalidStorageKey)
        else Ok(Distinct(Trimmed(payload.storageKeys)))
  }

  // ------------------------------------------------------ what a content lists

  /** The text between the marker that opens the metadata and the one that closes it. */
  ghost predicate Carries(content: string, text: string, encoded: string) {
    && content == text + "[[LC_ATTACHMENTS_V1:" + encoded + "]]"
    && forall i :: |text| < i <= |content| ==> !OccursAt(content, i, "[[LC_ATTACHMENTS_V1:")
  }

  /** Metadata the module accepts. */
  predicate Sound(metadata: Option<Payload>) {
    && metadata.Some? && metadata.value.version == 1 && |metadata.value.storageKeys| <= 20
    && forall i :: 0 <= i < |metadata.value.storageKeys| ==> IsUpload(Trim(metadata.value.storageKeys[i]))
  }

  ghost predicate FirstAt(xs: seq<string>, i: int, x: string) {
    0 <= i < |xs| && xs[i] == x && forall j :: 0 <= j < i ==> xs[j] != x
  }

  /** Each of `xs` once, in the order of their first occurrences. */
  ghost predicate InOrderOfFirst(keys: seq<string>, xs: seq<string>) {
    forall a, b, i, j :: 0 <= a < b < |keys| && FirstAt(xs, i, keys[a]) && FirstAt(xs, j, keys[b]) ==> i < j
  }

  lemma {:induction false} DistinctInOrder(xs: seq<string>)
    ensures InOrderOfFirst(Distinct(xs), xs)
  {
    if xs != [] {
      var n := |xs| - 1;
      var before, keys := Distinct(xs[..n]), Distinct(xs);
      DistinctInOrder(xs[..n]);
      forall a, b, i, j | 0 <= a < b < |keys| && FirstAt(xs, i, keys[a]) && FirstAt(xs, j, keys[b]) ensures i < j {
        assert keys[a] == before[a] && before[a] in xs[..n];
        assert FirstAt(xs[..n], i, keys[a]);
        if b < |before| {
          assert keys[b] == before[b] && before[b] in xs[..n];
          assert FirstAt(xs[..n], j, keys[b]);
        }
      }
    }
  }

  lemma CarriedIsEncoded(content: string, text: string, encoded: string)
    requires Carries(content, text, encoded)
    ensures RFind(content, MARKER_PREFIX) == Some(|text|)
    ensures EndsWith(content, MARKER_SUFFIX) && Encoded(content, |text|) == encoded
  {
    var p := "[[LC_ATTACHMENTS_V1:";
    assert content[|text|..|text| + |p|] == p;
    assert OccursAt(content, |text|, p);
    assert content[|content| - 2..] == "]]";
    assert content[|text| + |p|..|content| - 2] == encoded;
  }

  /**
    What a message lists. Behind the last opening marker stands the metadata;
    it is accepted if and only if it decodes to version 1 with at most twenty
    keys that are uploads once trimmed, and then exactly these trimmed keys are
    listed, in the order of their first occurrences.
  */
  lemma CarriedKeysAreListedIff(decode: Decoder, content: string, text: string, encoded: string)
    requires Carries(content, text, encoded)
    ensures Keys(decode, content).Ok? <==> Sound(decode(encoded))
    ensures Sound(decode(encoded)) ==>
      var keys, raw := Keys(decode, content).value, decode(encoded).value.storageKeys;
      && (forall k :: k in keys <==> exists i :: 0 <= i < |raw| && Trim(raw[i]) == k)
      && InOrderOfFirst(keys, Trimmed(raw))
  {
    CarriedIsEncoded(content, text, encoded);
    if decode(encoded).Some? {
      var raw := decode(encoded).value.storageKeys;
      DistinctInOrder(Trimmed(raw));
      assert forall i :: 0 <= i < |raw| ==> Trimmed(raw)[i] == Trim(raw[i]) && Trimmed(raw)[i] in Trimmed(raw);
    }
  }

  /** A content without an opening marker lists nothing; one whose metadata is not closed is refused. */
  lemma UnmarkedKeys(decode: Decoder, content: string)
    ensures !Contains(content, "[[LC_ATTACHMENTS_V1:") ==> Keys(decode, content) == Ok([])
    ensures Contains(content, "[[LC_ATTACHMENTS_V1:") && !EndsWith(content, "]]") ==>
      Keys(decode, content) == Err(InvalidMetadata)
  {
  }

  /** Every other content carries some metadata. */
  lemma ClosedMarkerCarries(content: string)
    requires Contains(content, "[[LC_ATTACHMENTS_V1:") && EndsWith(content, "]]")
    ensures exists text, encoded :: Carries(content, text, encoded)
  {
    var start := RFind(content, MARKER_PREFIX).value;
    var encoded := Encoded(content, start);
    MarkersDoNotOverlap(content, start);
    assert content == content[..start] + MARKER_PREFIX + encoded + MARKER_SUFFIX;
    assert Carries(content, content[..start], encoded);
  }

  /** Base64 holds no bracket, so what the client appends to a text is always what the module reads. */
  lemma AppendedIsCarried(text: string, encoded: string)
    requires '[' !in encoded
    ensures Carries(text + "[[LC_ATTACHMENTS_V1:" + encoded + "]]", text, encoded)
  {
    var p := "[[LC_ATTACHMENTS_V1:";
    var content := text + p + encoded + "]]";
    var n := |text|;
    forall i | n < i < |content| - 1 ensures !(content[i] == '[' && content[i + 1] == '[') {
      assert content[i] == if i < n + |p| then p[i - n]
                           else if i < n + |p| + |encoded| then encoded[i - n - |p|] else ']';
    }
    forall i | n < i <= |content| ensures !OccursAt(content, i, p) {
      assert i + |p| <= |content| ==>
        content[i..i + |p|][0] == content[i] && content[i..i + |p|][1] == content[i + 1];
    }
  }

  /** `attachment_keys` up to its loop. */
  method AttachmentKeys(decode: Decoder, content: string) returns (r: Result<seq<string>, Error>)
    ensures r == Keys(decode, content)
  {
    var start := RFind(content, MARKER_PREFIX);
    if start.None? {
      return Ok([]);
    }
    if !EndsWith(content, MARKER_SUFFIX) {
      return Err(InvalidMetadata);
    }
    var payload := decode(Encoded(content, start.value));
    if payload.None? || payload.value.version != PAYLOAD_VERSION
       || |payload.value.storageKeys| > MAX_ATTACHMENTS
    {
      return Err(InvalidMetadata);
    }
    r := CollectKeys(payload.value.storageKeys);
  }

  /** The loop over the decoded attachments, with the set of keys seen so far. */
  method CollectKeys(raw: seq<string>) returns (r: Result<seq<string>, Error>)
    ensures r.Ok? <==> forall k :: k in Trimmed(raw) ==> IsUpload(k)
    ensures r.Ok? ==> r.value == Distinct(Trimmed(raw))
    ensures r.Err? ==> r.error == InvalidStorageKey
  {
    ghost var trimmed := Trimmed(raw);
    var seen: set<string>, keys: seq<string> := {}, [];
    for n := 0 to |raw|
      invariant keys == Distinct(trimmed[..n])
      invariant forall k :: k in seen <==> k in keys
      invariant forall k :: k in trimmed[..n] ==> IsUpload(k)
    {
      var key := Trim(raw[n]);
      assert key == trimmed[n] && key in trimmed;
      DistinctPush(trimmed, n);
      if !IsUpload(key) {
        return Err(InvalidStorageKey);
      }
      if key !in seen {
        seen := seen + {key};
        keys := keys + [key];
      }
    }
    assert trimmed[..|raw|] == trimmed;
    return Ok(keys);
  }
}
