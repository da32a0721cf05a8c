/** The client's message store for one channel: the live window, the fetched pages, and what is shown. */
module MessageMerge {
  import opened Wrappers
  import opened Paging

  function Ids(rows: seq<Message>): set<nat> {
    set m | m in rows :: m.id
  }

  function IndexOf(rows: seq<Message>, id: nat): (r: Option<nat>)
    ensures r.None? <==> id !in Ids(rows)
    ensures r.Some? ==> r.value < |rows| && rows[r.value].id == id
    ensures r.Some? ==> forall i :: 0 <= i < r.value ==> rows[i].id != id
  {
    if rows == [] then None
    else if rows[0].id == id then Some(0)
    else
      var rest := IndexOf(rows[1..], id);
      if rest.Some? then Some(rest.value + 1) else None
  }

  /** `Map.set` by id: an old key keeps its place, a new one goes last. */
  function Put(rows: seq<Message>, m: Message): seq<Message> {
    var i := IndexOf(rows, m.id);
    if i.Some? then rows[i.value := m] else rows + [m]
  }

  function PutAll(rows: seq<Message>, more: seq<Message>): seq<Message> {
    if more == [] then rows else Put(PutAll(rows, more[..|more| - 1]), more[|more| - 1])
  }

  /** `mergeHistory`: without older rows the live ones are taken as they come. */
  function Merge(older: seq<Message>, live: seq<Message>): seq<Message> {
    if older == [] then live else SortByTime(PutAll(PutAll([], older), live))
  }

  // ------------------------------------------------------------------ what it means

  lemma PutMeans(rows: seq<Message>, m: Message)
    requires UniqueIds(rows)
    ensures UniqueIds(Put(rows, m))
    ensures forall x :: x in Put(rows, m) <==> x == m || (x in rows && x.id != m.id)
  {
    var i := IndexOf(rows, m.id);
    if i.Some? {
      var t := rows[i.value := m];
      forall x ensures x in t <==> x == m || (x in rows && x.id != m.id) {
        if x in rows && x.id != m.id {
          var j :| 0 <= j < |rows| && rows[j] == x;
          assert t[j] == x;
        }
        assert t[i.value] == m;
      }
    } else {
      forall x | x in rows ensures x.id != m.id {
        assert x.id in Ids(rows);
      }
      assert forall j :: 0 <= j < |rows| ==> rows[j] in rows;
    }
  }

  lemma {:induction false} PutAllMeans(rows: seq<Message>, more: seq<Message>)
    requires UniqueIds(rows) && UniqueIds(more)
    ensures UniqueIds(PutAll(rows, more))
    ensures forall x :: x in PutAll(rows, more) <==> x in more || (x in rows && x.id !in Ids(more))
  {
    if more != [] {
      var front, last := more[..|more| - 1], more[|more| - 1];
      assert more == front + [last];
      PutAllMeans(rows, front);
      PutMeans(PutAll(rows, front), last);
      assert Ids(more) == Ids(front) + {last.id};
      assert forall x :: x in front ==> x.id != last.id;
    }
  }

  /**
    A merge shows every id once, the live copy of every live id, and the older
    rows that are not live; and it shows them oldest first.
  */
  lemma MergeMeans(older: seq<Message>, live: seq<Message>)
    requires UniqueIds(older) && UniqueIds(live)
    ensures UniqueIds(Merge(older, live))
    ensures forall m :: m in Merge(older, live) <==> m in live || (m in older && m.id !in Ids(live))
    ensures Sorted(live) || older != [] ==> Sorted(Merge(older, live))
  {
    if older != [] {
      PutAllMeans([], older);
      PutAllMeans(PutAll([], older), live);
      var all := PutAll(PutAll([], older), live);
      SortIsSorted(all);
      SortKeepsIds(all);
      forall m ensures m in SortByTime(all) <==> m in all {
        SortMembers(all, m);
      }
    }
  }

  lemma SortKeepsIds(rows: seq<Message>)
    requires UniqueIds(rows)
    ensures UniqueIds(SortByTime(rows))
  {
    var s := SortByTime(rows);
    SortKeepsDistinct(rows);
    forall i, j | 0 <= i < j < |s| ensures s[i].id != s[j].id {
      SortMembers(rows, s[i]);
      SortMembers(rows, s[j]);
      IdNamesRow(rows, s[i], s[j]);
    }
  }

  lemma IdNamesRow(rows: seq<Message>, m: Message, n: Message)
    requires UniqueIds(rows) && m in rows && n in rows
    ensures m.id == n.id ==> m == n
  {
    var i :| 0 <= i < |rows| && rows[i] == m;
    var j :| 0 <= j < |rows| && rows[j] == n;
  }

  // ----------------------------------------------------------------------- the store

  datatype Channel = Channel(older: seq<Message>, shown: seq<Message>, exhausted: bool)

  datatype Action =
    | SetWindow(live: seq<Message>)
    | Prepend(page: seq<Message>, last: bool)
    | Append(message: Message)

  const EMPTY := Channel([], [], false)

  function Do(c: Channel, action: Action): Channel {
    match action
    case SetWindow(live) => c.(shown := Merge(c.older, live))
    case Prepend(page, last) =>
      var older := Merge(c.older, page);
      Channel(older, Merge(older, c.shown), last)
    case Append(m) => c.(shown := Put(c.shown, m))
  }

  function DoAll(actions: seq<Action>): Channel {
    if actions == [] then EMPTY else Do(DoAll(actions[..|actions| - 1]), actions[|actions| - 1])
  }

  /** The module delivers windows and pages without repeats, oldest first. */
  ghost predicate WellFormed(action: Action) {
    match action
    case SetWindow(live) => UniqueIds(live) && Sorted(live)
    case Prepend(page, _) => UniqueIds(page) && Sorted(page)
    case Append(_) => true
  }

  ghost predicate AllWellFormed(actions: seq<Action>) {
    forall action :: action in actions ==> WellFormed(action)
  }

  ghost predicate Inv(c: Channel) {
    && UniqueIds(c.older) && Sorted(c.older)
    && UniqueIds(c.shown)
    && Ids(c.older) <= Ids(c.shown)
  }

  lemma MergeIds(older: seq<Message>, live: seq<Message>)
    requires UniqueIds(older) && UniqueIds(live)
    ensures Ids(Merge(older, live)) == Ids(older) + Ids(live)
  {
    MergeMeans(older, live);
    forall id ensures id in Ids(Merge(older, live)) <==> id in Ids(older) || id in Ids(live) {
      if id in Ids(older) && id !in Ids(live) {
        var m :| m in older && m.id == id;
        assert m in Merge(older, live);
      } else if id in Ids(live) {
        var m :| m in live && m.id == id;
        assert m in Merge(older, live);
      }
    }
  }

  lemma PutIds(rows: seq<Message>, m: Message)
    requires UniqueIds(rows)
    ensures Ids(Put(rows, m)) == Ids(rows) + {m.id}
  {
    PutMeans(rows, m);
    forall id ensures id in Ids(Put(rows, m)) <==> id in Ids(rows) || id == m.id {
      if id in Ids(rows) && id != m.id {
        var x :| x in rows && x.id == id;
        assert x in Put(rows, m);
      } else if id == m.id {
        assert m in Put(rows, m);
      }
    }
  }

  lemma DoKeepsInv(c: Channel, action: Action)
    requires Inv(c) && WellFormed(action)
    ensures Inv(Do(c, action))
    ensures Ids(c.older) <= Ids(Do(c, action).older)
    ensures action.Prepend? ==> Ids(action.page) <= Ids(Do(c, action).older)
  {
    match action
    case SetWindow(live) =>
      MergeMeans(c.older, live);
      MergeIds(c.older, live);
    case Prepend(page, _) =>
      var older := Merge(c.older, page);
      MergeMeans(c.older, page);
      MergeIds(c.older, page);
      MergeMeans(older, c.shown);
      MergeIds(older, c.shown);
    case Append(m) =>
      PutMeans(c.shown, m);
      PutIds(c.shown, m);
  }

  lemma {:induction false} RunKeepsInv(actions: seq<Action>)
    requires AllWellFormed(actions)
    ensures Inv(DoAll(actions))
  {
    if actions != [] {
      RunKeepsInv(actions[..|actions| - 1]);
      DoKeepsInv(DoAll(actions[..|actions| - 1]), actions[|actions| - 1]);
    }
  }

  /** Whatever syncs, pages and new messages follow, no row of a fetched page is ever lost from the list. */
  lemma {:induction false} FetchedRowsStay(actions: seq<Action>, n: nat, m: Message)
    requires AllWellFormed(actions) && n < |actions|
    requires actions[n].Prepend? && m in actions[n].page
    ensures m.id in Ids(DoAll(actions).older) && m.id in Ids(DoAll(actions).shown)
  {
    var front, last := actions[..|actions| - 1], actions[|actions| - 1];
    RunKeepsInv(front);
    RunKeepsInv(actions);
    DoKeepsInv(DoAll(front), last);
    if n < |actions| - 1 {
      FetchedRowsStay(front, n, m);
    }
  }

  /**
    After a window sync the list is sorted and shows each id once: the live copy
    of every row in the window, and of the fetched rows those not in it.
  */
  lemma SyncShowsWindowAndPages(actions: seq<Action>, m: Message)
    requires AllWellFormed(actions) && actions != [] && actions[|actions| - 1].SetWindow?
    ensures
      var c, live := DoAll(actions), actions[|actions| - 1].live;
      && Sorted(c.shown) && UniqueIds(c.shown)
      && (m in c.shown <==> m in live || (m in c.older && m.id !in Ids(live)))
  {
    var front, live := actions[..|actions| - 1], actions[|actions| - 1].live;
    assert AllWellFormed(front) && WellFormed(actions[|actions| - 1]);
    RunKeepsInv(front);
    MergeMeans(DoAll(front).older, live);
  }

  /** A row survives a sync exactly when the window or a fetched page holds its id; others slide out. */
  lemma SlidesOutIff(actions: seq<Action>, live: seq<Message>, m: Message)
    requires AllWellFormed(actions) && WellFormed(SetWindow(live)) && m in DoAll(actions).shown
    ensures m.id in Ids(Do(DoAll(actions), SetWindow(live)).shown) <==>
      m.id in Ids(live) || m.id in Ids(DoAll(actions).older)
  {
    RunKeepsInv(actions);
    MergeIds(DoAll(actions).older, live);
  }

  /**
    A new message goes to the end of what is shown; a shown one with its id is
    replaced in its place. Nothing else changes.
  */
  lemma AppendMeans(c: Channel, m: Message, before: seq<Message>, x: Message, after: seq<Message>)
    requires Inv(c)
    ensures m.id !in Ids(c.shown) ==> Do(c, Append(m)) == Channel(c.older, c.shown + [m], c.exhausted)
    ensures c.shown == before + [x] + after && x.id == m.id ==>
      Do(c, Append(m)) == Channel(c.older, before + [m] + after, c.exhausted)
  {
    if c.shown == before + [x] + after && x.id == m.id {
      var i := |before|;
      assert c.shown[i] == x && x in c.shown;
      assert IndexOf(c.shown, m.id) == Some(i);
      assert c.shown[i := m] == before + [m] + after;
    }
  }

  /** A live message, once appended, is shown until a newer copy of it or the next window sync takes its place. */
  lemma {:induction false} AppendedIsShown(actions: seq<Action>, n: nat, m: Message)
    requires AllWellFormed(actions) && n < |actions| && actions[n] == Append(m)
    requires forall k :: n < k < |actions| ==> !actions[k].SetWindow?
    requires forall k :: n < k < |actions| && actions[k].Append? ==> actions[k].message.id != m.id
    ensures m in DoAll(actions).shown
  {
    var front, last := actions[..|actions| - 1], actions[|actions| - 1];
    RunKeepsInv(front);
    if n < |actions| - 1 {
      AppendedIsShown(front, n, m);
      assert last == actions[|actions| - 1];
    }
    ActionKeepsShown(DoAll(front), last, m);
  }

  lemma ActionKeepsShown(c: Channel, action: Action, m: Message)
    requires Inv(c) && WellFormed(action) && !action.SetWindow?
    requires action == Append(m) || (m in c.shown && (action.Append? ==> action.message.id != m.id))
    ensures m in Do(c, action).shown
  {
    match action
    case Append(n) => PutMeans(c.shown, n);
    case Prepend(page, _) =>
      MergeMeans(c.older, page);
      MergeMeans(Merge(c.older, page), c.shown);
  }

  /** A fetched page is kept, merged into the older rows; the page last fetched says whether there is more. */
  lemma {:induction false} LastPageDecides(actions: seq<Action>, n: nat)
    requires n < |actions| && actions[n].Prepend?
    requires forall k :: n < k < |actions| ==> !actions[k].Prepend?
    ensures DoAll(actions).exhausted == actions[n].last
  {
    if n < |actions| - 1 {
      LastPageDecides(actions[..|actions| - 1], n);
    }
  }

  /** Until a page is fetched there is no older row, and nothing says that the history is exhausted. */
  lemma {:induction false} NothingFetched(actions: seq<Action>)
    requires forall k :: 0 <= k < |actions| ==> !actions[k].Prepend?
    ensures DoAll(actions).older == [] && !DoAll(actions).exhausted
  {
    if actions != [] {
      NothingFetched(actions[..|actions| - 1]);
    }
  }

  // ---------------------------------------------------------------------- the methods

  method MergeHistory(older: seq<Message>, live: seq<Message>) returns (merged: seq<Message>)
    ensures merged == Merge(older, live)
  {
    if older == [] {
      return live;
    }
    var byId: seq<Message> := [];
    for i := 0 to |older|
      invariant byId == PutAll([], older[..i])
    {
      assert older[..i + 1][..i] == older[..i];
      byId := Put(byId, older[i]);
    }
    assert older[..|older|] == older;
    for i := 0 to |live|
      invariant byId == PutAll(PutAll([], older), live[..i])
    {
      assert live[..i + 1][..i] == live[..i];
      byId := Put(byId, live[i]);
    }
    assert live[..|live|] == live;
    merged := SortByTime(byId);
  }

  class MessagesStore {
    var messagesByChannel: map<nat, seq<Message>>
    var olderByChannel: map<nat, seq<Message>>
    var historyExhausted: map<nat, bool>

    constructor ()
      ensures forall id :: View(id) == EMPTY
    {
      messagesByChannel := map[];
      olderByChannel := map[];
      historyExhausted := map[];
    }

    function View(id: nat): Channel
      reads this
    {
      Channel(if id in olderByChannel then olderByChannel[id] else [],
              if id in messagesByChannel then messagesByChannel[id] else [],
              id in historyExhausted && historyExhausted[id])
    }

    method SetChannelMessages(id: nat, messages: seq<Message>)
      modifies this`messagesByChannel
      ensures View(id) == Do(old(View(id)), SetWindow(messages))
      ensures forall other :: other != id ==> View(other) == old(View(other))
    {
      var merged := MergeHistory(View(id).older, messages);
      if View(id).shown != merged {
        messagesByChannel := messagesByChannel[id := merged];
      }
    }

    method PrependOlderMessages(id: nat, older: seq<Message>, exhausted: bool)
      modifies this
      ensures View(id) == Do(old(View(id)), Prepend(older, exhausted))
      ensures forall other :: other != id ==> View(other) == old(View(other))
    {
      var nextOlder := MergeHistory(View(id).older, older);
      var shown := MergeHistory(nextOlder, View(id).shown);
      olderByChannel := olderByChannel[id := nextOlder];
      messagesByChannel := messagesByChannel[id := shown];
      historyExhausted := historyExhausted[id := exhausted];
    }

    method AppendMessage(id: nat, message: Message)
      modifies this`messagesByChannel
      ensures View(id) == Do(old(View(id)), Append(message))
      ensures forall other :: other != id ==> View(other) == old(View(other))
    {
      var shown := View(id).shown;
      var i := IndexOf(shown, message.id);
      if i.Some? {
        if shown[i.value] == message {
          assert shown[i.value := message] == shown;
          return;
        }
        messagesByChannel := messagesByChannel[id := shown[i.value := message]];
      } else {
        messagesByChannel := messagesByChannel[id := shown + [message]];
      }
    }
  }
}
