/** The string operations the storage protocol uses. */
module Text {
  import opened Wrappers

  predicate StartsWith(s: string, prefix: string) {
    prefix <= s
  }

  predicate EndsWith(s: string, suffix: string) {
    |suffix| <= |s| && s[|s| - |suffix|..] == suffix
  }

  predicate OccursAt(s: string, i: nat, part: string) {
    i + |part| <= |s| && s[i..i + |part|] == part
  }

  predicate Contains(s: string, part: string) {
    exists i :: 0 <= i <= |s| && OccursAt(s, i, part)
  }

  lemma OccursIff(s: string, i: nat, part: string)
    ensures OccursAt(s, i, part) <==> exists a, b :: |a| == i && s == a + part + b
  {
    if OccursAt(s, i, part) {
      assert s == s[..i] + part + s[i + |part|..];
    }
  }

  lemma EndsIff(s: string, suffix: string)
    ensures EndsWith(s, suffix) <==> exists a :: s == a + suffix
  {
    if EndsWith(s, suffix) {
      assert s == s[..|s| - |suffix|] + suffix;
    }
  }

  /** The last occurrence of `part` that starts before `bound`. */
  function LastBefore(s: string, part: string, bound: nat): (r: Option<nat>)
    ensures r.Some? ==> r.value < bound && OccursAt(s, r.value, part)
    ensures forall i: nat :: i < bound && OccursAt(s, i, part) ==> r.Some? && i <= r.value
  {
    if bound == 0 then None
    else if OccursAt(s, bound - 1, part) then Some(bound - 1)
    else LastBefore(s, part, bound - 1)
  }

  /** The last occurrence of `part`, if there is one. */
  function RFind(s: string, part: string): (r: Option<nat>)
    ensures r.None? <==> !Contains(s, part)
    ensures r.Some? ==> OccursAt(s, r.value, part) && forall i: nat :: i > r.value ==> !OccursAt(s, i, part)
  {
    LastBefore(s, part, |s| + 1)
  }

  predicate SlashFree(s: string) {
    '/' !in s
  }

  /** The pieces between the slashes; never empty. */
  function Split(s: string): (r: seq<string>)
    ensures |r| > 0 && forall p :: p in r ==> SlashFree(p)
  {
    if s == "" then [""]
    else
      var rest := Split(s[1..]);
      assert rest[0] in rest && forall p :: p in rest[1..] ==> p in rest;
      if s[0] == '/' then [""] + rest else [[s[0]] + rest[0]] + rest[1..]
  }

  function Join(parts: seq<string>): string {
    if |parts| == 0 then "" else if |parts| == 1 then parts[0] else parts[0] + "/" + Join(parts[1..])
  }

  lemma {:induction false} JoinSplit(s: string)
    ensures Join(Split(s)) == s
  {
    if s != "" {
      var rest := Split(s[1..]);
      JoinSplit(s[1..]);
      if s[0] == '/' {
        assert Split(s)[1..] == rest;
        assert Join(Split(s)) == "" + "/" + Join(rest);
      } else {
        assert Split(s)[1..] == rest[1..];
      }
      assert s == [s[0]] + s[1..];
    }
  }

  lemma SplitPrefix(s: string, first: string)
    requires |Split(s)| > 1 && Split(s)[0] == first
    ensures StartsWith(s, first + "/")
  {
    JoinSplit(s);
  }

  lemma {:induction false} SplitSegment(first: string, rest: string)
    requires SlashFree(first)
    ensures Split(first) == [first]
    ensures Split(first + "/" + rest) == [first] + Split(rest)
  {
    var s := first + "/" + rest;
    if first == "" {
      assert s[1..] == rest;
    } else {
      assert s[0] == first[0] && s[1..] == first[1..] + "/" + rest;
      assert first == [first[0]] + first[1..];
      SplitSegment(first[1..], rest);
    }
  }

  /** Splitting undoes joining, for pieces without a slash. */
  lemma {:induction false} SplitJoin(parts: seq<string>)
    requires |parts| > 0 && forall p :: p in parts ==> SlashFree(p)
    ensures Split(Join(parts)) == parts
  {
    assert parts[0] in parts;
    if |parts| == 1 {
      SplitSegment(parts[0], "");
    } else {
      assert forall p :: p in parts[1..] ==> p in parts;
      SplitJoin(parts[1..]);
      SplitSegment(parts[0], Join(parts[1..]));
    }
  }

  /** A path splits into exactly the slash-free pieces it joins. */
  lemma SplitIff(s: string, parts: seq<string>)
    ensures Split(s) == parts <==> |parts| > 0 && (forall p :: p in parts ==> SlashFree(p)) && s == Join(parts)
  {
    JoinSplit(s);
    if |parts| > 0 && (forall p :: p in parts ==> SlashFree(p)) {
      SplitJoin(parts);
    }
  }

  function Digit(d: nat): char
    requires d < 10
  {
    '0' + d as char
  }

  function Decimal(n: nat): (r: string)
    ensures |r| > 0 && forall c :: c in r ==> '0' <= c <= '9'
  {
    if n < 10 then [Digit(n)] else Decimal(n / 10) + [Digit(n % 10)]
  }

  lemma {:induction false} DecimalIsInjective(m: nat, n: nat)
    requires Decimal(m) == Decimal(n)
    ensures m == n
  {
    var s, t := Decimal(m), Decimal(n);
    assert s[|s| - 1] == Digit(m % 10) && t[|t| - 1] == Digit(n % 10);
    if m >= 10 || n >= 10 {
      assert m >= 10 ==> s[..|s| - 1] == Decimal(m / 10);
      assert n >= 10 ==> t[..|t| - 1] == Decimal(n / 10);
      assert |s| == |t|;
      DecimalIsInjective(m / 10, n / 10);
    }
  }

  predicate IsDigits(s: string) {
    forall i :: 0 <= i < |s| ==> '0' <= s[i] <= '9'
  }

  /** The number a string of decimal digits denotes, the most significant digit first. */
  function Value(s: string): nat
    requires IsDigits(s)
  {
    if s == "" then 0 else 10 * Value(s[..|s| - 1]) + (s[|s| - 1] - '0') as nat
  }

  /** `Decimal` writes the number in base ten, without leading zeros. */
  lemma {:induction false} DecimalMeans(n: nat)
    ensures IsDigits(Decimal(n)) && Value(Decimal(n)) == n
    ensures Decimal(n)[0] == '0' <==> n == 0
  {
    if n >= 10 {
      DecimalMeans(n / 10);
      assert Decimal(n)[..|Decimal(n)| - 1] == Decimal(n / 10);
    }
  }

  predicate ColonFree(s: string) {
    ':' !in s
  }

  /** The first colon separates, whatever follows it. */
  lemma {:induction false} CutAtColon(a: string, x: string, b: string, y: string)
    requires ColonFree(a) && ColonFree(b) && a + ":" + x == b + ":" + y
    ensures a == b && x == y
  {
    var s, t := a + ":" + x, b + ":" + y;
    assert s[0] == (if a == "" then ':' else a[0]) && t[0] == (if b == "" then ':' else b[0]);
    if a == "" {
      assert b == "";
      assert s[1..] == x && t[1..] == y;
    } else {
      assert s[1..] == a[1..] + ":" + x && t[1..] == b[1..] + ":" + y;
      CutAtColon(a[1..], x, b[1..], y);
      assert a == [a[0]] + a[1..] && b == [b[0]] + b[1..];
    }
  }
}
