/**
  History paging: the newest window, pages older than a cursor, and what a
  client that keeps asking ends up with.
*/
module Paging {
  type Identity = nat

  /** A row of a channel or thread; `content` stands for the columns nothing here looks at. */
  datatype Message = Message(id: nat, sender: Identity, recipient: Identity, sentAt: nat, content: string)

  const WINDOW := 200
  const MAX_PAGE := WINDOW

  function PageSize(limit: nat): (take: nat)
    ensures 1 <= take <= 200
    ensures 1 <= limit <= 200 ==> take == limit
    ensures limit > 200 ==> take == 200
  {
    if limit < 1 then 1 else if limit > MAX_PAGE then MAX_PAGE else limit
  }

  // -------------------------------------------------------------- stable sorting

  predicate Sorted(s: seq<Message>) {
    forall i, j :: 0 <= i < j < |s| ==> s[i].sentAt <= s[j].sentAt
  }

  /** In front of every row that is not older. */
  function Insert(m: Message, s: seq<Message>): (r: seq<Message>)
    ensures |r| == |s| + 1
  {
    if s == [] || m.sentAt <= s[0].sentAt then [m] + s else [s[0]] + Insert(m, s[1..])
  }

  /** `sort_by_key` on the sending time: rows with equal times keep their order. */
  function SortByTime(rows: seq<Message>): (r: seq<Message>)
    ensures |r| == |rows|
  {
    if rows == [] then [] else Insert(rows[0], SortByTime(rows[1..]))
  }

  function Older(rows: seq<Message>, before: nat): (r: seq<Message>)
    ensures |r| <= |rows|
  {
    if rows == [] then []
    else (if rows[0].sentAt < before then [rows[0]] else []) + Older(rows[1..], before)
  }

  lemma {:induction false} InsertMultiset(m: Message, s: seq<Message>)
    ensures multiset(Insert(m, s)) == multiset(s) + multiset{m}
  {
    if s != [] {
      InsertMultiset(m, s[1..]);
      assert s == [s[0]] + s[1..];
    }
  }

  lemma {:induction false} SortMultiset(rows: seq<Message>)
    ensures multiset(SortByTime(rows)) == multiset(rows)
  {
    if rows != [] {
      SortMultiset(rows[1..]);
      InsertMultiset(rows[0], SortByTime(rows[1..]));
      assert rows == [rows[0]] + rows[1..];
    }
  }

  lemma SortMembers(rows: seq<Message>, m: Message)
    ensures m in SortByTime(rows) <==> m in rows
  {
    SortMultiset(rows);
    assert m in multiset(SortByTime(rows)) <==> m in multiset(rows);
  }

  lemma {:induction false} OlderMember(rows: seq<Message>, before: nat, m: Message)
    ensures m in Older(rows, before) <==> m in rows && m.sentAt < before
  {
    if rows != [] {
      OlderMember(rows[1..], before, m);
    }
  }

  lemma InsertMember(m: Message, s: seq<Message>, x: Message)
    requires x in Insert(m, s)
    ensures x == m || x in s
  {
    InsertMultiset(m, s);
    assert x in multiset(Insert(m, s));
  }

  lemma {:induction false} InsertKeepsSorted(m: Message, s: seq<Message>)
    requires Sorted(s)
    ensures Sorted(Insert(m, s))
  {
    if s != [] && m.sentAt > s[0].sentAt {
      var r := Insert(m, s[1..]);
      InsertKeepsSorted(m, s[1..]);
      forall i | 0 <= i < |r| ensures s[0].sentAt <= r[i].sentAt {
        InsertMember(m, s[1..], r[i]);
      }
    }
  }

  lemma {:induction false} SortIsSorted(rows: seq<Message>)
    ensures Sorted(SortByTime(rows))
  {
    if rows != [] {
      SortIsSorted(rows[1..]);
      InsertKeepsSorted(rows[0], SortByTime(rows[1..]));
    }
  }

  lemma {:induction false} OlderConcat(xs: seq<Message>, ys: seq<Message>, before: nat)
    ensures Older(xs + ys, before) == Older(xs, before) + Older(ys, before)
  {
    if xs == [] {
      assert xs + ys == ys;
    } else {
      assert (xs + ys)[1..] == xs[1..] + ys;
      OlderConcat(xs[1..], ys, before);
    }
  }

  lemma {:induction false} OlderInsert(m: Message, s: seq<Message>, before: nat)
    requires Sorted(s)
    ensures Older(Insert(m, s), before) == if m.sentAt < before then Insert(m, Older(s, before)) else Older(s, before)
  {
    var o := Older(s, before);
    if s == [] || m.sentAt <= s[0].sentAt {
      assert Insert(m, s)[1..] == s;
      if o != [] {
        OlderMember(s, before, o[0]);
        assert m.sentAt <= o[0].sentAt;
      }
    } else {
      var rest := Older(s[1..], before);
      OlderInsert(m, s[1..], before);
      assert Insert(m, s)[0] == s[0] && Insert(m, s)[1..] == Insert(m, s[1..]);
      if s[0].sentAt < before {
        assert o[0] == s[0] && o[1..] == rest;
      }
    }
  }

  lemma {:induction false} NoneOlder(s: seq<Message>, before: nat)
    requires forall i :: 0 <= i < |s| ==> s[i].sentAt >= before
    ensures Older(s, before) == []
  {
    if s != [] {
      NoneOlder(s[1..], before);
    }
  }

  /** Of a sorted list, the older rows are a prefix. */
  lemma {:induction false} OlderIsPrefix(s: seq<Message>, before: nat)
    requires Sorted(s)
    ensures Older(s, before) == s[..|Older(s, before)|]
    ensures forall i :: 0 <= i < |s| ==> (s[i].sentAt < before <==> i < |Older(s, before)|)
  {
    if s != [] && s[0].sentAt < before {
      var rest := s[1..];
      OlderIsPrefix(rest, before);
      assert s[..|Older(rest, before)| + 1] == [s[0]] + rest[..|Older(rest, before)|];
      assert forall i :: 0 < i < |s| ==> s[i] == rest[i - 1];
    } else {
      NoneOlder(s, before);
    }
  }

  /** Filtering first and sorting then, as the procedure does, is cutting the sorted history. */
  lemma {:induction false} OlderOfSorted(rows: seq<Message>, before: nat)
    ensures SortByTime(Older(rows, before)) == Older(SortByTime(rows), before)
  {
    if rows != [] {
      var o := Older(rows, before);
      OlderOfSorted(rows[1..], before);
      SortIsSorted(rows[1..]);
      OlderInsert(rows[0], SortByTime(rows[1..]), before);
      if rows[0].sentAt < before {
        assert o[0] == rows[0] && o[1..] == Older(rows[1..], before);
      } else {
        assert o == Older(rows[1..], before);
      }
    }
  }

  // ------------------------------------------------------------- window and pages

  function Last(s: seq<Message>, take: nat): seq<Message> {
    s[if |s| < take then 0 else |s| - take..]
  }

  function Newest(rows: seq<Message>): seq<Message> {
    Last(SortByTime(rows), WINDOW)
  }

  function OlderThan(rows: seq<Message>, before: nat, take: nat): seq<Message> {
    Last(SortByTime(Older(rows, before)), take)
  }

  /** `newest`, which sorts in place and splits the tail off. */
  method TakeNewest(rows: seq<Message>) returns (window: seq<Message>)
    ensures window == Newest(rows)
  {
    var sorted := SortByTime(rows);
    var start := if |sorted| < WINDOW then 0 else |sorted| - WINDOW;
    window := sorted[start..];
  }

  /** `older_than`, which drops the newer rows before it sorts. */
  method TakeOlder(rows: seq<Message>, before: nat, take: nat) returns (page: seq<Message>)
    ensures page == OlderThan(rows, before, take)
  {
    var kept: seq<Message> := [];
    for i := 0 to |rows|
      invariant kept == Older(rows[..i], before)
    {
      assert rows[..i + 1] == rows[..i] + [rows[i]];
      OlderConcat(rows[..i], [rows[i]], before);
      assert Older([rows[i]], before) == if rows[i].sentAt < before then [rows[i]] else [];
      if rows[i].sentAt < before {
        kept := kept + [rows[i]];
      }
    }
    assert rows[..|rows|] == rows;
    var sorted := SortByTime(kept);
    var start := if |sorted| < take then 0 else |sorted| - take;
    page := sorted[start..];
  }

  function Minus(a: nat, b: nat): nat {
    if a < b then 0 else a - b
  }

  /** A page is the stretch of the sorted history that ends where the cursor cuts. */
  lemma PageIsStretch(rows: seq<Message>, before: nat, take: nat)
    ensures
      var s := SortByTime(rows);
      var k := |Older(s, before)|;
      OlderThan(rows, before, take) == s[..k][Minus(k, take)..]
  {
    OlderOfSorted(rows, before);
    SortIsSorted(rows);
    OlderIsPrefix(SortByTime(rows), before);
  }

  /** A page shorter than asked for leaves nothing older behind. */
  lemma ShortPageIsLast(rows: seq<Message>, before: nat, take: nat, m: Message)
    requires |OlderThan(rows, before, take)| < take && m in rows && m.sentAt < before
    ensures m in OlderThan(rows, before, take)
  {
    OlderMember(rows, before, m);
    SortMembers(Older(rows, before), m);
  }

  ghost predicate UniqueIds(rows: seq<Message>) {
    forall i, j :: 0 <= i < j < |rows| ==> rows[i].id != rows[j].id
  }

  predicate Distinct(rows: seq<Message>) {
    forall i, j :: 0 <= i < j < |rows| ==> rows[i] != rows[j]
  }

  lemma {:induction false} DistinctCounts(rows: seq<Message>, m: Message)
    requires Distinct(rows)
    ensures multiset(rows)[m] <= 1
  {
    if rows != [] {
      DistinctCounts(rows[1..], m);
      assert rows == [rows[0]] + rows[1..];
      assert rows[0] !in rows[1..];
    }
  }

  lemma {:induction false} CountsDistinct(rows: seq<Message>)
    requires forall m :: multiset(rows)[m] <= 1
    ensures Distinct(rows)
  {
    if rows != [] {
      var rest := rows[1..];
      assert rows == [rows[0]] + rest;
      assert forall m :: multiset(rest)[m] <= multiset(rows)[m];
      CountsDistinct(rest);
      assert multiset(rest)[rows[0]] == 0;
      assert rows[0] !in rest;
    }
  }

  lemma SortKeepsDistinct(rows: seq<Message>)
    requires UniqueIds(rows)
    ensures Distinct(SortByTime(rows))
  {
    SortMultiset(rows);
    forall m ensures multiset(SortByTime(rows))[m] <= 1 {
      DistinctCounts(rows, m);
    }
    CountsDistinct(SortByTime(rows));
  }

  // ------------------------------------------------------- reconstructing history

  const MICROS_PER_MILLI := 1000

  /** The time of the oldest row held: exact, or cut to the milliseconds the web client keeps. */
  function Cursor(t: nat, exact: bool): (c: nat)
    ensures c <= t
  {
    if exact then t else t - t % MICROS_PER_MILLI
  }

  lemma CursorIsMonotone(t: nat, u: nat, exact: bool)
    requires t <= u
    ensures Cursor(t, exact) <= Cursor(u, exact)
  {
    assert t / MICROS_PER_MILLI <= u / MICROS_PER_MILLI;
  }

  /** One request: the page in front of what is held. */
  function Ask(rows: seq<Message>, exact: bool, held: seq<Message>, limit: nat): seq<Message>
  {
    if held == [] then held else OlderThan(rows, Cursor(held[0].sentAt, exact), PageSize(limit)) + held
  }

  function AskAll(rows: seq<Message>, exact: bool, limits: seq<nat>): seq<Message>
  {
    if limits == [] then Newest(rows)
    else Ask(rows, exact, AskAll(rows, exact, limits[..|limits| - 1]), limits[|limits| - 1])
  }

  /** Where the window starts. */
  function Edge(rows: seq<Message>): nat {
    Minus(|rows|, 200)
  }

  lemma WindowStartsAtEdge(rows: seq<Message>)
    ensures Newest(rows) == SortByTime(rows)[Edge(rows)..]
  {
  }

  /** The row before position `i` of the sorted history is older than the cursor taken there. */
  predicate Cuts(s: seq<Message>, exact: bool, i: nat)
    requires 0 < i < |s|
  {
    Precedes(s[i - 1].sentAt, s[i].sentAt, exact)
  }

  predicate Precedes(t: nat, u: nat, exact: bool) {
    t < Cursor(u, exact)
  }

  /** No two neighbours below the window tie in the client's precision. */
  predicate Separated(rows: seq<Message>, exact: bool)
  {
    forall i :: 0 < i <= Edge(rows) ==> Cuts(SortByTime(rows), exact, i)
  }

  /** What a request finds for a client that holds the history from position `i` on. */
  lemma AskIsStretch(rows: seq<Message>, exact: bool, i: nat, limit: nat) returns (k: nat)
    requires i < |rows|
    ensures k <= i && (k == i <==> i == 0 || Cuts(SortByTime(rows), exact, i))
    ensures
      var s := SortByTime(rows);
      Ask(rows, exact, s[i..], limit) == s[..k][Minus(k, PageSize(limit))..] + s[i..]
  {
    var s := SortByTime(rows);
    var before := Cursor(s[i].sentAt, exact);
    k := |Older(s, before)|;
    SortIsSorted(rows);
    OlderIsPrefix(s, before);
    PageIsStretch(rows, before, PageSize(limit));
  }

  lemma StretchesMeetIff(s: seq<Message>, k: nat, i: nat, take: nat)
    requires Distinct(s) && k <= i <= |s| && take > 0
    ensures s[..k][Minus(k, take)..] + s[i..] == s[Minus(i, take)..] <==> k == i
  {
    var page, whole := s[..k][Minus(k, take)..], s[Minus(i, take)..];
    if k == i {
      assert page + s[i..] == whole;
    } else {
      assert |page + s[i..]| == |whole| ==> |page| == take;
      assert |page| == take ==> page[take - 1] == s[k - 1] && whole[take - 1] == s[i - 1];
    }
  }

  /** A page closes up with what is held if and only if the cursor cuts right below it. */
  lemma PageAdjoinsIff(rows: seq<Message>, exact: bool, i: nat, limit: nat)
    requires UniqueIds(rows) && i < |rows|
    ensures
      var s := SortByTime(rows);
      Ask(rows, exact, s[i..], limit) == s[Minus(i, PageSize(limit))..] <==> i == 0 || Cuts(s, exact, i)
  {
    var k := AskIsStretch(rows, exact, i, limit);
    SortKeepsDistinct(rows);
    StretchesMeetIff(SortByTime(rows), k, i, PageSize(limit));
  }

  function Total(limits: seq<nat>): nat {
    if limits == [] then 0 else Total(limits[..|limits| - 1]) + PageSize(limits[|limits| - 1])
  }

  /** The cursor that request `n` of `limits` takes, if the pages before it adjoin, cuts right below it. */
  predicate CutsStop(rows: seq<Message>, exact: bool, limits: seq<nat>, n: nat)
    requires n < |limits|
  {
    var stop := Minus(Edge(rows), Total(limits[..n]));
    stop > 0 ==> Cuts(SortByTime(rows), exact, stop)
  }

  /** No request of a caller that asks for `limits` stops between two rows that tie in its precision. */
  predicate StopsCut(rows: seq<Message>, exact: bool, limits: seq<nat>) {
    forall n :: 0 <= n < |limits| ==> CutsStop(rows, exact, limits, n)
  }

  lemma StopsCutFront(rows: seq<Message>, exact: bool, limits: seq<nat>, m: nat)
    requires m <= |limits| && forall n :: 0 <= n < m ==> CutsStop(rows, exact, limits, n)
    ensures StopsCut(rows, exact, limits[..m])
  {
    forall n | 0 <= n < m ensures CutsStop(rows, exact, limits[..m], n) {
      assert limits[..m][..n] == limits[..n] && CutsStop(rows, exact, limits, n);
    }
  }

  /** While the stops cut, every request moves the held stretch down by a full page. */
  lemma {:induction false} CutPagesAdjoin(rows: seq<Message>, exact: bool, limits: seq<nat>)
    requires UniqueIds(rows) && StopsCut(rows, exact, limits)
    ensures AskAll(rows, exact, limits) == SortByTime(rows)[Minus(Edge(rows), Total(limits))..]
    decreases |limits|
  {
    if limits == [] {
      WindowStartsAtEdge(rows);
    } else {
      var n := |limits| - 1;
      StopsCutFront(rows, exact, limits, n);
      CutPagesAdjoin(rows, exact, limits[..n]);
      assert CutsStop(rows, exact, limits, n);
      OnePageDown(rows, exact, Minus(Edge(rows), Total(limits[..n])), limits[n]);
    }
  }

  lemma OnePageDown(rows: seq<Message>, exact: bool, i: nat, limit: nat)
    requires UniqueIds(rows) && i <= Edge(rows)
    requires i > 0 ==> Cuts(SortByTime(rows), exact, i)
    ensures Ask(rows, exact, SortByTime(rows)[i..], limit) == SortByTime(rows)[Minus(i, PageSize(limit))..]
  {
    if rows != [] {
      PageAdjoinsIff(rows, exact, i, limit);
    }
  }

  /** What is held reaches down to the tie below position `i`, but not the older row of it. */
  predicate LostBelow(rows: seq<Message>, i: nat, held: seq<Message>)
    requires 0 < i < |rows|
  {
    held != [] && held[0].sentAt <= SortByTime(rows)[i].sentAt && SortByTime(rows)[i - 1] !in held
  }

  /** Once the cursor is at or below a tied row, no page of any size returns it. */
  lemma {:induction false} StaysLost(rows: seq<Message>, exact: bool, limits: seq<nat>, n: nat, i: nat)
    requires n <= |limits| && 0 < i < |rows| && !Cuts(SortByTime(rows), exact, i)
    requires LostBelow(rows, i, AskAll(rows, exact, limits[..n]))
    ensures LostBelow(rows, i, AskAll(rows, exact, limits))
    decreases |limits|
  {
    if n == |limits| {
      assert limits[..n] == limits;
    } else {
      var front, last := limits[..|limits| - 1], limits[|limits| - 1];
      assert front[..n] == limits[..n];
      StaysLost(rows, exact, front, n, i);
      var held := AskAll(rows, exact, front);
      CursorIsMonotone(held[0].sentAt, SortByTime(rows)[i].sentAt, exact);
      PageMisses(rows, Cursor(held[0].sentAt, exact), PageSize(last), SortByTime(rows)[i - 1], held);
    }
  }

  lemma PageMisses(rows: seq<Message>, before: nat, take: nat, lost: Message, held: seq<Message>)
    requires before <= lost.sentAt && lost !in held && held != [] && before <= held[0].sentAt
    ensures
      var more := OlderThan(rows, before, take) + held;
      more[0].sentAt <= held[0].sentAt && lost !in more
  {
    var page := OlderThan(rows, before, take);
    forall m | m in page ensures m.sentAt < before {
      PageIsOlder(rows, before, take, m);
    }
    assert page != [] ==> page[0] in page;
  }

  lemma PageIsOlder(rows: seq<Message>, before: nat, take: nat, m: Message)
    requires m in OlderThan(rows, before, take)
    ensures m in rows && m.sentAt < before
  {
    SortMembers(Older(rows, before), m);
    OlderMember(rows, before, m);
  }

  /** The first stop inside a tie loses the row below it, whatever is asked for from there on. */
  lemma TiedStopLosesRow(rows: seq<Message>, exact: bool, limits: seq<nat>, n: nat)
    requires UniqueIds(rows) && n <= |limits| && StopsCut(rows, exact, limits[..n]) && Total(limits[..n]) < Edge(rows)
    requires !Cuts(SortByTime(rows), exact, Edge(rows) - Total(limits[..n]))
    ensures SortByTime(rows)[Edge(rows) - Total(limits[..n]) - 1] !in AskAll(rows, exact, limits)
  {
    CutPagesAdjoin(rows, exact, limits[..n]);
    SortKeepsDistinct(rows);
    StaysLost(rows, exact, limits, n, Edge(rows) - Total(limits[..n]));
  }

  /**
    Completeness of one caller: the pages it asked for make up the sorted
    history if and only if they reach its start and no request stopped between
    two rows that tie in the caller's precision.
  */
  lemma PagesMeetIff(rows: seq<Message>, exact: bool, limits: seq<nat>)
    requires UniqueIds(rows)
    ensures AskAll(rows, exact, limits) == SortByTime(rows) <==>
      StopsCut(rows, exact, limits) && Total(limits) >= Edge(rows)
  {
    if StopsCut(rows, exact, limits) {
      CutPagesAdjoin(rows, exact, limits);
    } else {
      var n := FirstTiedStop(rows, exact, limits);
      TiedStopLosesRow(rows, exact, limits, n);
      assert SortByTime(rows)[Edge(rows) - Total(limits[..n]) - 1] in SortByTime(rows);
    }
  }

  lemma FirstTiedStop(rows: seq<Message>, exact: bool, limits: seq<nat>) returns (n: nat)
    requires !StopsCut(rows, exact, limits)
    ensures n < |limits| && !CutsStop(rows, exact, limits, n) && StopsCut(rows, exact, limits[..n])
  {
    n := 0;
    while CutsStop(rows, exact, limits, n)
      invariant n < |limits| && forall m :: 0 <= m < n ==> CutsStop(rows, exact, limits, m)
      decreases |limits| - n
    {
      assert exists m :: 0 <= m < |limits| && !CutsStop(rows, exact, limits, m);
      n := n + 1;
    }
    StopsCutFront(rows, exact, limits, n);
  }

  lemma {:induction false} TotalGrows(limits: seq<nat>)
    ensures Total(limits) >= |limits|
  {
    if limits != [] {
      TotalGrows(limits[..|limits| - 1]);
    }
  }

  /** `n` requests for pages of one size. */
  function Pages(size: nat, n: nat): (limits: seq<nat>)
    ensures |limits| == n
  {
    seq(n, _ => size)
  }

  lemma {:induction false} PagesTotal(size: nat, n: nat)
    ensures Total(Pages(size, n)) == n * PageSize(size)
  {
    if n > 0 {
      PagesTotal(size, n - 1);
      assert Pages(size, n)[..n - 1] == Pages(size, n - 1);
    }
  }

  ghost predicate IsComplete(rows: seq<Message>, exact: bool) {
    forall limits :: |limits| >= |rows| ==> AskAll(rows, exact, limits) == SortByTime(rows)
  }

  /**
    Whatever the page sizes, paging to the end gives exactly the sorted history,
    if and only if no two neighbours below the window tie at the client's precision.
  */
  lemma PagingIsCompleteIff(rows: seq<Message>, exact: bool)
    requires UniqueIds(rows)
    ensures IsComplete(rows, exact) <==> Separated(rows, exact)
  {
    if Separated(rows, exact) {
      forall limits: seq<nat> | |limits| >= |rows| ensures AskAll(rows, exact, limits) == SortByTime(rows) {
        PagesMeetIff(rows, exact, limits);
        TotalGrows(limits);
      }
    } else {
      var i :| 0 < i <= Edge(rows) && !Cuts(SortByTime(rows), exact, i);
      var limits, n := Pages(1, |rows|), Edge(rows) - i;
      PagesTotal(1, n);
      assert limits[..n] == Pages(1, n);
      assert !CutsStop(rows, exact, limits, n);
      PagesMeetIff(rows, exact, limits);
    }
  }

  /** Distinct times are enough for a caller that keeps microseconds. */
  lemma DistinctTimesSuffice(rows: seq<Message>)
    requires UniqueIds(rows)
    requires forall i, j :: 0 <= i < j < |rows| ==> rows[i].sentAt != rows[j].sentAt
    ensures IsComplete(rows, true)
  {
    PagingIsCompleteIff(rows, true);
    SortKeepsDistinct(rows);
    SortIsSorted(rows);
    var s := SortByTime(rows);
    forall i | 0 < i <= Edge(rows) ensures Cuts(s, true, i) {
      SortMembers(rows, s[i - 1]);
      SortMembers(rows, s[i]);
    }
  }

  /**
    They are not enough for the web client: when the window starts between two
    rows of one millisecond, the older of them is in no page of any size it can
    ask for.
  */
  lemma MillisecondsLoseRows(rows: seq<Message>, limits: seq<nat>)
    requires UniqueIds(rows) && Edge(rows) > 0
    requires
      var s := SortByTime(rows);
      s[Edge(rows) - 1].sentAt / 1000 == s[Edge(rows)].sentAt / 1000
    ensures SortByTime(rows)[Edge(rows) - 1] in rows
    ensures SortByTime(rows)[Edge(rows) - 1] !in AskAll(rows, false, limits)
  {
    SortMembers(rows, SortByTime(rows)[Edge(rows) - 1]);
    assert !Cuts(SortByTime(rows), false, Edge(rows));
    assert limits[..0] == [];
    TiedStopLosesRow(rows, false, limits, 0);
  }

  // ------------------------------------------------------------------ the client

  ghost predicate OlderThanAll(page: seq<Message>, held: seq<Message>) {
    forall i, j :: 0 <= i < |page| && 0 <= j < |held| ==> page[i].sentAt < held[j].sentAt
  }

  /** A page lies before everything held, so no row ever comes twice. */
  lemma PageIsDisjoint(rows: seq<Message>, before: nat, take: nat, held: seq<Message>)
    requires held != [] && before <= held[0].sentAt && Sorted(held) && Distinct(held) && UniqueIds(rows)
    ensures
      var page := OlderThan(rows, before, take);
      OlderThanAll(page, held) && Sorted(page + held) && Distinct(page + held)
  {
    var page := OlderThan(rows, before, take);
    PageIsSorted(rows, before, take);
    forall i | 0 <= i < |page| ensures page[i].sentAt < before {
      PageIsOlder(rows, before, take, page[i]);
    }
  }

  lemma PageIsSorted(rows: seq<Message>, before: nat, take: nat)
    requires UniqueIds(rows)
    ensures Sorted(OlderThan(rows, before, take)) && Distinct(OlderThan(rows, before, take))
  {
    var s := SortByTime(rows);
    PageIsStretch(rows, before, take);
    SortIsSorted(rows);
    SortKeepsDistinct(rows);
    SortedPart(s, |Older(s, before)|, Minus(|Older(s, before)|, take));
  }

  lemma AskMore(rows: seq<Message>, exact: bool, limits: seq<nat>, limit: nat)
    ensures AskAll(rows, exact, limits + [limit]) == Ask(rows, exact, AskAll(rows, exact, limits), limit)
  {
    assert (limits + [limit])[..|limits|] == limits;
  }

  /** An empty page, with separated times, means that everything is held. */
  lemma EmptyPageIsLast(rows: seq<Message>, exact: bool, limits: seq<nat>, limit: nat)
    requires UniqueIds(rows) && Separated(rows, exact)
    requires AskAll(rows, exact, limits + [limit]) == AskAll(rows, exact, limits)
    ensures AskAll(rows, exact, limits) == SortByTime(rows)
  {
    CutPagesAdjoin(rows, exact, limits);
    CutPagesAdjoin(rows, exact, limits + [limit]);
    assert (limits + [limit])[..|limits|] == limits;
    assert |AskAll(rows, exact, limits)| == |rows| - Minus(Edge(rows), Total(limits));
  }

  lemma SortedPart(s: seq<Message>, k: nat, from: nat)
    requires Sorted(s) && Distinct(s) && from <= k <= |s|
    ensures Sorted(s[..k][from..]) && Distinct(s[..k][from..])
  {
  }

  /** One request of a client that holds what the earlier requests gave. */
  method LoadPage(rows: seq<Message>, exact: bool, held: seq<Message>, limit: nat, ghost limits: seq<nat>)
    returns (more: seq<Message>, found: bool)
    requires UniqueIds(rows) && held != [] && held == AskAll(rows, exact, limits) && Sorted(held) && Distinct(held)
    ensures more == AskAll(rows, exact, limits + [limit]) && Sorted(more) && Distinct(more)
    ensures found ==> more != [] && more[0].sentAt < held[0].sentAt
    ensures !found ==> more == held && (Separated(rows, exact) ==> held == SortByTime(rows))
  {
    var before := Cursor(held[0].sentAt, exact);
    var page := TakeOlder(rows, before, PageSize(limit));
    PageIsDisjoint(rows, before, PageSize(limit), held);
    AskMore(rows, exact, limits, limit);
    more, found := page + held, page != [];
    if !found && Separated(rows, exact) {
      EmptyPageIsLast(rows, exact, limits, limit);
    }
  }

  lemma WindowIsSorted(rows: seq<Message>)
    requires UniqueIds(rows)
    ensures Sorted(Newest(rows)) && Distinct(Newest(rows))
  {
    SortIsSorted(rows);
    SortKeepsDistinct(rows);
  }

  /**
    Asks until a page comes back empty, with any page sizes: terminates, never
    shows a row twice, and with separated times ends with the sorted history.
  */
  method LoadHistory(rows: seq<Message>, exact: bool) returns (held: seq<Message>, ghost limits: seq<nat>)
    requires UniqueIds(rows)
    ensures held == AskAll(rows, exact, limits)
    ensures Sorted(held) && Distinct(held)
    ensures Separated(rows, exact) ==> held == SortByTime(rows)
  {
    held := TakeNewest(rows);
    limits := [];
    WindowIsSorted(rows);
    var found := rows != [];
    while found
      invariant held == AskAll(rows, exact, limits)
      invariant Sorted(held) && Distinct(held) && (held == [] ==> rows == [] && !found)
      invariant !found && Separated(rows, exact) ==> held == SortByTime(rows)
      decreases if held == [] then 0 else held[0].sentAt, found
    {
      var limit: nat := *;
      held, found := LoadPage(rows, exact, held, limit, limits);
      limits := limits + [limit];
    }
  }

  // -------------------------------------------------------------- the web client

  const CLIENT_PAGE := 100

  /** No row that a page of the client starts with ties, in its precision, with the row below. */
  ghost predicate ClientStopsCut(rows: seq<Message>, exact: bool) {
    forall n: nat :: n * 100 < Edge(rows) ==> Cuts(SortByTime(rows), exact, Edge(rows) - n * 100)
  }

  lemma ClientStop(rows: seq<Message>, exact: bool, n: nat, m: nat)
    requires m < n
    ensures CutsStop(rows, exact, Pages(CLIENT_PAGE, n), m) <==>
      (m * CLIENT_PAGE < Edge(rows) ==> Cuts(SortByTime(rows), exact, Edge(rows) - m * CLIENT_PAGE))
  {
    assert Pages(CLIENT_PAGE, n)[..m] == Pages(CLIENT_PAGE, m);
    PagesTotal(CLIENT_PAGE, m);
  }

  lemma ClientStopsAre(rows: seq<Message>, exact: bool, n: nat)
    ensures ClientStopsCut(rows, exact) ==> StopsCut(rows, exact, Pages(CLIENT_PAGE, n))
    ensures StopsCut(rows, exact, Pages(CLIENT_PAGE, n)) && n * CLIENT_PAGE >= Edge(rows) ==>
      ClientStopsCut(rows, exact)
  {
    forall m | 0 <= m < n
      ensures CutsStop(rows, exact, Pages(CLIENT_PAGE, n), m) <==>
        (m * CLIENT_PAGE < Edge(rows) ==> Cuts(SortByTime(rows), exact, Edge(rows) - m * CLIENT_PAGE))
    {
      ClientStop(rows, exact, n, m);
    }
    if StopsCut(rows, exact, Pages(CLIENT_PAGE, n)) && n * CLIENT_PAGE >= Edge(rows) {
      forall m: nat | m * CLIENT_PAGE < Edge(rows)
        ensures Cuts(SortByTime(rows), exact, Edge(rows) - m * CLIENT_PAGE)
      {
        assert CutsStop(rows, exact, Pages(CLIENT_PAGE, n), m);
      }
    }
  }

  /** A short page at a stop that cuts is the rest of the history. */
  lemma ShortPageReachesStart(rows: seq<Message>, exact: bool, n: nat)
    requires UniqueIds(rows) && ClientStopsCut(rows, exact)
    requires
      var held := AskAll(rows, exact, Pages(CLIENT_PAGE, n));
      |AskAll(rows, exact, Pages(CLIENT_PAGE, n + 1))| < |held| + CLIENT_PAGE
    ensures (n + 1) * CLIENT_PAGE >= Edge(rows)
  {
    ClientStopsAre(rows, exact, n);
    ClientStopsAre(rows, exact, n + 1);
    CutPagesAdjoin(rows, exact, Pages(CLIENT_PAGE, n));
    CutPagesAdjoin(rows, exact, Pages(CLIENT_PAGE, n + 1));
    PagesTotal(CLIENT_PAGE, n);
    PagesTotal(CLIENT_PAGE, n + 1);
  }

  /**
    The client's own loop, pages of 100 until a short one: it terminates, and
    ends with the sorted history if and only if no page starts inside a tie.
    Ties within a page cost nothing.
  */
  method LoadToShortPage(rows: seq<Message>, exact: bool) returns (held: seq<Message>)
    requires UniqueIds(rows)
    ensures held == SortByTime(rows) <==> ClientStopsCut(rows, exact)
    ensures Sorted(held) && Distinct(held)
  {
    held := TakeNewest(rows);
    WindowIsSorted(rows);
    if held == [] {
      return;
    }
    ghost var n: nat := 0;
    var exhausted := false;
    while !exhausted
      invariant held == AskAll(rows, exact, Pages(CLIENT_PAGE, n))
      invariant held != [] && Sorted(held) && Distinct(held)
      invariant exhausted && ClientStopsCut(rows, exact) ==> n * CLIENT_PAGE >= Edge(rows)
      decreases held[0].sentAt, !exhausted
    {
      var before := Cursor(held[0].sentAt, exact);
      var page := TakeOlder(rows, before, PageSize(CLIENT_PAGE));
      PageIsDisjoint(rows, before, PageSize(CLIENT_PAGE), held);
      AskMore(rows, exact, Pages(CLIENT_PAGE, n), CLIENT_PAGE);
      assert Pages(CLIENT_PAGE, n) + [CLIENT_PAGE] == Pages(CLIENT_PAGE, n + 1);
      exhausted := |page| < CLIENT_PAGE;
      if exhausted && ClientStopsCut(rows, exact) {
        ShortPageReachesStart(rows, exact, n);
      }
      held := page + held;
      n := n + 1;
    }
    ClientIsCompleteIff(rows, exact, n);
  }

  lemma ClientIsCompleteIff(rows: seq<Message>, exact: bool, n: nat)
    requires UniqueIds(rows) && (ClientStopsCut(rows, exact) ==> n * CLIENT_PAGE >= Edge(rows))
    ensures AskAll(rows, exact, Pages(CLIENT_PAGE, n)) == SortByTime(rows) <==> ClientStopsCut(rows, exact)
  {
    PagesMeetIff(rows, exact, Pages(CLIENT_PAGE, n));
    PagesTotal(CLIENT_PAGE, n);
    ClientStopsAre(rows, exact, n);
  }
}
