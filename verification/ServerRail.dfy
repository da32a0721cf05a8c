/** The server rail: top-level servers and groups of servers, and the actions that rearrange them. */
module ServerRail {
  import opened Wrappers

  datatype Item = Server(id: int) | GroupItem(gid: string)

  datatype Group = Group(id: string, title: string, serverIds: seq<int>, collapsed: bool)

  /** `groups` is the record of groups, in its insertion order. */
  datatype Rail = Rail(order: seq<Item>, groups: seq<Group>)

  // -------------------------------------------------------------- counting

  function Times<T(==)>(xs: seq<T>, x: T): nat {
    if xs == [] then 0 else (if xs[0] == x then 1 else 0) + Times(xs[1..], x)
  }

  /** How often a server is a member of some group. */
  function Grouped(groups: seq<Group>, id: int): nat {
    if groups == [] then 0 else Times(groups[0].serverIds, id) + Grouped(groups[1..], id)
  }

  function Keys(groups: seq<Group>, gid: string): nat {
    if groups == [] then 0 else (if groups[0].id == gid then 1 else 0) + Keys(groups[1..], gid)
  }

  /** How often a server occurs on the rail. */
  function Count(r: Rail, id: int): nat {
    Times(r.order, Server(id)) + Grouped(r.groups, id)
  }

  ghost predicate Unique(r: Rail) {
    forall id :: Count(r, id) <= 1
  }

  /** The top level shows exactly the groups of the record. */
  ghost predicate GroupsMatch(r: Rail) {
    forall gid :: Times(r.order, GroupItem(gid)) == Keys(r.groups, gid) <= 1
  }

  predicate BigEnough(groups: seq<Group>) {
    forall g :: g in groups ==> |g.serverIds| >= 2
  }

  /** Each server occurs once, the top level shows exactly the groups, and no group is smaller than two. */
  ghost predicate Partition(r: Rail) {
    Unique(r) && GroupsMatch(r) && BigEnough(r.groups)
  }

  ghost predicate SameIds(r: Rail, t: Rail) {
    forall id :: Count(r, id) == Count(t, id)
  }

  lemma {:induction false} TimesConcat<T>(xs: seq<T>, ys: seq<T>, x: T)
    ensures Times(xs + ys, x) == Times(xs, x) + Times(ys, x)
  {
    if xs == [] {
      assert xs + ys == ys;
    } else {
      assert (xs + ys)[1..] == xs[1..] + ys;
      TimesConcat(xs[1..], ys, x);
    }
  }

  lemma {:induction false} TimesIn<T>(xs: seq<T>, x: T)
    ensures Times(xs, x) > 0 <==> x in xs
  {
    if xs != [] {
      TimesIn(xs[1..], x);
    }
  }

  lemma {:induction false} GroupsConcat(xs: seq<Group>, ys: seq<Group>, id: int, gid: string)
    ensures Grouped(xs + ys, id) == Grouped(xs, id) + Grouped(ys, id)
    ensures Keys(xs + ys, gid) == Keys(xs, gid) + Keys(ys, gid)
  {
    if xs == [] {
      assert xs + ys == ys;
    } else {
      assert (xs + ys)[1..] == xs[1..] + ys;
      GroupsConcat(xs[1..], ys, id, gid);
    }
  }

  lemma OneGroup(g: Group, id: int, gid: string)
    ensures Grouped([g], id) == Times(g.serverIds, id)
    ensures Keys([g], gid) == if g.id == gid then 1 else 0
  {
    assert [g][1..] == [];
  }

  lemma GroupsPush(groups: seq<Group>, g: Group, id: int, gid: string)
    ensures Grouped(groups + [g], id) == Grouped(groups, id) + Times(g.serverIds, id)
    ensures Keys(groups + [g], gid) == Keys(groups, gid) + if g.id == gid then 1 else 0
  {
    GroupsConcat(groups, [g], id, gid);
    OneGroup(g, id, gid);
  }

  // --------------------------------------------------------------- list operations

  /** `filter` that drops one value. */
  function Without<T(==)>(xs: seq<T>, x: T): seq<T> {
    if xs == [] then [] else (if xs[0] == x then [] else [xs[0]]) + Without(xs[1..], x)
  }

  lemma {:induction false} WithoutTimes<T>(xs: seq<T>, x: T, y: T)
    ensures Times(Without(xs, x), y) == if y == x then 0 else Times(xs, y)
  {
    if xs != [] {
      WithoutTimes(xs[1..], x, y);
      if xs[0] == x {
        assert Without(xs, x) == Without(xs[1..], x);
      } else {
        assert Without(xs, x)[1..] == Without(xs[1..], x);
      }
    }
  }

  function IndexOf<T(==)>(xs: seq<T>, x: T): (i: Option<nat>)
    ensures i.None? <==> x !in xs
    ensures i.Some? ==> i.value < |xs| && xs[i.value] == x
  {
    if xs == [] then None
    else if xs[0] == x then Some(0)
    else
      var rest := IndexOf(xs[1..], x);
      if rest.Some? then Some(rest.value + 1) else None
  }

  /** Some items in the place of the one at `i`. */
  function Replace<T>(xs: seq<T>, i: nat, items: seq<T>): seq<T>
    requires i < |xs|
  {
    xs[..i] + items + xs[i + 1..]
  }

  lemma ReplaceTimes<T>(xs: seq<T>, i: nat, items: seq<T>, x: T)
    requires i < |xs|
    ensures Times(Replace(xs, i, items), x) + (if xs[i] == x then 1 else 0) == Times(xs, x) + Times(items, x)
  {
    assert xs == xs[..i] + ([xs[i]] + xs[i + 1..]);
    TimesConcat(xs[..i], [xs[i]] + xs[i + 1..], x);
    TimesConcat(xs[..i] + items, xs[i + 1..], x);
    TimesConcat(xs[..i], items, x);
  }

  function FindGroup(groups: seq<Group>, gid: string): (i: Option<nat>)
    ensures i.None? <==> forall g :: g in groups ==> g.id != gid
    ensures i.Some? ==> i.value < |groups| && groups[i.value].id == gid
  {
    if groups == [] then None
    else if groups[0].id == gid then Some(0)
    else
      var rest := FindGroup(groups[1..], gid);
      if rest.Some? then Some(rest.value + 1) else None
  }

  lemma {:induction false} KeysFound(groups: seq<Group>, gid: string)
    ensures Keys(groups, gid) > 0 <==> FindGroup(groups, gid).Some?
  {
    if groups != [] {
      KeysFound(groups[1..], gid);
    }
  }

  lemma ReplaceGroup(groups: seq<Group>, i: nat, more: seq<Group>, id: int, gid: string)
    requires i < |groups|
    ensures Grouped(Replace(groups, i, more), id) + Times(groups[i].serverIds, id) ==
      Grouped(groups, id) + Grouped(more, id)
    ensures Keys(Replace(groups, i, more), gid) + (if groups[i].id == gid then 1 else 0) ==
      Keys(groups, gid) + Keys(more, gid)
  {
    assert groups == groups[..i] + ([groups[i]] + groups[i + 1..]);
    GroupsConcat(groups[..i], [groups[i]] + groups[i + 1..], id, gid);
    GroupsConcat(groups[..i] + more, groups[i + 1..], id, gid);
    GroupsConcat(groups[..i], more, id, gid);
  }

  // -------------------------------------------------------------------- the actions

  /** Assigning a record key: an old key keeps its place. */
  function PutGroup(groups: seq<Group>, g: Group): seq<Group> {
    var i := FindGroup(groups, g.id);
    if i.Some? then Replace(groups, i.value, [g]) else groups + [g]
  }

  /** `createGroup`, with the id drawn from the clock as a parameter. */
  function CreateGroup(r: Rail, source: int, target: int, gid: string): Rail {
    var order := Without(r.order, Server(source));
    var at := IndexOf(order, Server(target));
    Rail(if at.Some? then Replace(order, at.value, [GroupItem(gid)]) else [GroupItem(gid)] + order,
         PutGroup(r.groups, Group(gid, "Group", [target, source], false)))
  }

  function AddToGroup(r: Rail, id: int, gid: string): Rail {
    var i := FindGroup(r.groups, gid);
    if i.None? || id in r.groups[i.value].serverIds then r
    else
      var g := r.groups[i.value];
      Rail(Without(r.order, Server(id)), PutGroup(r.groups, g.(serverIds := g.serverIds + [id])))
  }

  function Servers(ids: seq<int>): seq<Item> {
    if ids == [] then [] else [Server(ids[0])] + Servers(ids[1..])
  }

  /** Behind the group's item, or at the very front when the rail does not show the group. */
  function InsertBehind(order: seq<Item>, at: Option<nat>, item: Item): seq<Item>
    requires at.Some? ==> at.value < |order|
  {
    if at.Some? then order[..at.value + 1] + ([item] + order[at.value + 1..]) else [item] + order
  }

  /** `removeFromGroup`: a group left with fewer than two members is dissolved in its place. */
  function RemoveFromGroup(r: Rail, id: int, gid: string): Rail {
    var i := FindGroup(r.groups, gid);
    if i.None? || id !in r.groups[i.value].serverIds then r
    else
      var g := r.groups[i.value];
      var remaining := Without(g.serverIds, id);
      var at := IndexOf(r.order, GroupItem(gid));
      if |remaining| >= 2 then
        Rail(InsertBehind(r.order, at, Server(id)), PutGroup(r.groups, g.(serverIds := remaining)))
      else
        Rail(if at.Some? then Replace(r.order, at.value, Servers(remaining) + [Server(id)])
             else r.order + (Servers(remaining) + [Server(id)]),
             Replace(r.groups, i.value, []))
  }

  function ToggleCollapsed(r: Rail, gid: string): Rail {
    var i := FindGroup(r.groups, gid);
    if i.None? then r
    else r.(groups := PutGroup(r.groups, r.groups[i.value].(collapsed := !r.groups[i.value].collapsed)))
  }

  function Rename(r: Rail, gid: string, title: string): Rail {
    var i := FindGroup(r.groups, gid);
    if i.None? then r else r.(groups := PutGroup(r.groups, r.groups[i.value].(title := title)))
  }

  // ------------------------------------------------------------- grouping two servers

  /** The servers an action names are neither the same nor grouped already. */
  predicate CanGroup(r: Rail, source: int, target: int) {
    source != target && Grouped(r.groups, source) == 0 && Grouped(r.groups, target) == 0
  }

  lemma CreateGroupCounts(r: Rail, source: int, target: int, gid: string, id: int, h: string)
    requires FindGroup(r.groups, gid).None?
    ensures
      var t := CreateGroup(r, source, target, gid);
      && Times(t.order, Server(id)) ==
         (if id == source || (id == target && Times(r.order, Server(id)) == 0) then 0
          else Times(r.order, Server(id)) - if id == target then 1 else 0)
      && Times(t.order, GroupItem(h)) == Times(r.order, GroupItem(h)) + (if h == gid then 1 else 0)
      && Grouped(t.groups, id) ==
           Grouped(r.groups, id) + (if id == target then 1 else 0) + (if id == source then 1 else 0)
      && Keys(t.groups, h) == Keys(r.groups, h) + (if h == gid then 1 else 0)
  {
    var order := Without(r.order, Server(source));
    var at := IndexOf(order, Server(target));
    var g := Group(gid, "Group", [target, source], false);
    WithoutTimes(r.order, Server(source), Server(id));
    WithoutTimes(r.order, Server(source), GroupItem(h));
    TimesIn(order, Server(target));
    if at.Some? {
      ReplaceTimes(order, at.value, [GroupItem(gid)], Server(id));
      ReplaceTimes(order, at.value, [GroupItem(gid)], GroupItem(h));
    } else {
      TimesConcat([GroupItem(gid)], order, Server(id));
      TimesConcat([GroupItem(gid)], order, GroupItem(h));
    }
    GroupsConcat(r.groups, [g], id, h);
    OneGroup(g, id, h);
    assert g.serverIds == [target] + [source];
    TimesConcat([target], [source], id);
  }

  /** Grouping two servers keeps the partition exactly when they differ and neither is in a group yet. */
  lemma CreateGroupKeepsPartitionIff(r: Rail, source: int, target: int, gid: string)
    requires Partition(r) && FindGroup(r.groups, gid).None?
    ensures Partition(CreateGroup(r, source, target, gid)) <==> CanGroup(r, source, target)
  {
    var t := CreateGroup(r, source, target, gid);
    CreateGroupMatches(r, source, target, gid);
    if CanGroup(r, source, target) {
      forall id ensures Count(t, id) <= 1 {
        assert Count(r, id) <= 1;
        CreateGroupCounts(r, source, target, gid, id, gid);
      }
    } else {
      var id := if Grouped(r.groups, target) > 0 then target else source;
      CreateGroupCounts(r, source, target, gid, id, gid);
      assert Count(t, id) >= 2;
    }
  }

  lemma CreateGroupMatches(r: Rail, source: int, target: int, gid: string)
    requires GroupsMatch(r) && BigEnough(r.groups) && FindGroup(r.groups, gid).None?
    ensures GroupsMatch(CreateGroup(r, source, target, gid)) && BigEnough(CreateGroup(r, source, target, gid).groups)
  {
    var t := CreateGroup(r, source, target, gid);
    KeysFound(r.groups, gid);
    forall h ensures Times(t.order, GroupItem(h)) == Keys(t.groups, h) <= 1 {
      assert Times(r.order, GroupItem(h)) == Keys(r.groups, h) <= 1;
      CreateGroupCounts(r, source, target, gid, source, h);
    }
  }

  /** A group id that is in use already, as for two groups made in one millisecond, always breaks the partition. */
  lemma ReusedGroupIdBreaksPartition(r: Rail, source: int, target: int, gid: string)
    requires Partition(r) && FindGroup(r.groups, gid).Some?
    ensures !Partition(CreateGroup(r, source, target, gid))
  {
    var t := CreateGroup(r, source, target, gid);
    var order := Without(r.order, Server(source));
    var at := IndexOf(order, Server(target));
    KeysFound(r.groups, gid);
    assert Times(r.order, GroupItem(gid)) == Keys(r.groups, gid) == 1;
    WithoutTimes(r.order, Server(source), GroupItem(gid));
    if at.Some? {
      ReplaceTimes(order, at.value, [GroupItem(gid)], GroupItem(gid));
    } else {
      TimesConcat([GroupItem(gid)], order, GroupItem(gid));
    }
    assert Times(t.order, GroupItem(gid)) == 2;
  }

  /** Grouping two top-level servers conserves the ids. */
  lemma CreateGroupConserves(r: Rail, source: int, target: int, gid: string)
    requires Partition(r) && FindGroup(r.groups, gid).None?
    requires source != target && Server(source) in r.order && Server(target) in r.order
    ensures Partition(CreateGroup(r, source, target, gid)) && SameIds(r, CreateGroup(r, source, target, gid))
  {
    TimesIn(r.order, Server(source));
    TimesIn(r.order, Server(target));
    assert Count(r, source) <= 1 && Count(r, target) <= 1;
    CreateGroupKeepsPartitionIff(r, source, target, gid);
    forall id ensures Count(r, id) == Count(CreateGroup(r, source, target, gid), id) {
      CreateGroupCounts(r, source, target, gid, id, gid);
    }
  }

  // ----------------------------------------------------------------- growing a group

  predicate Adds(r: Rail, id: int, gid: string) {
    var i := FindGroup(r.groups, gid);
    i.Some? && id !in r.groups[i.value].serverIds
  }

  lemma AddToGroupCounts(r: Rail, id: int, gid: string, x: int, h: string)
    requires Adds(r, id, gid)
    ensures
      var t := AddToGroup(r, id, gid);
      && Times(t.order, Server(x)) == (if x == id then 0 else Times(r.order, Server(x)))
      && Times(t.order, GroupItem(h)) == Times(r.order, GroupItem(h))
      && Grouped(t.groups, x) == Grouped(r.groups, x) + (if x == id then 1 else 0)
      && Keys(t.groups, h) == Keys(r.groups, h)
      && (BigEnough(r.groups) ==> BigEnough(t.groups))
  {
    var i := FindGroup(r.groups, gid).value;
    var g := r.groups[i].(serverIds := r.groups[i].serverIds + [id]);
    WithoutTimes(r.order, Server(id), Server(x));
    WithoutTimes(r.order, Server(id), GroupItem(h));
    ReplaceGroup(r.groups, i, [g], x, h);
    OneGroup(g, x, h);
    TimesConcat(r.groups[i].serverIds, [id], x);
  }

  /** Adding to a group keeps the partition exactly when it changes nothing or the server is in no group. */
  lemma AddToGroupKeepsPartitionIff(r: Rail, id: int, gid: string)
    requires Partition(r)
    ensures Partition(AddToGroup(r, id, gid)) <==> !Adds(r, id, gid) || Grouped(r.groups, id) == 0
  {
    if Adds(r, id, gid) {
      var t := AddToGroup(r, id, gid);
      forall x ensures Count(t, x) == if x == id then Grouped(r.groups, id) + 1 else Count(r, x) {
        AddToGroupCounts(r, id, gid, x, gid);
      }
      forall h ensures Times(t.order, GroupItem(h)) == Keys(t.groups, h) <= 1 {
        AddToGroupCounts(r, id, gid, id, h);
      }
      AddToGroupCounts(r, id, gid, id, gid);
      assert forall x :: Count(r, x) <= 1;
      assert Count(t, id) == Grouped(r.groups, id) + 1;
    }
  }

  /** Adding a top-level server conserves the ids. */
  lemma AddToGroupConserves(r: Rail, id: int, gid: string)
    requires Partition(r) && Server(id) in r.order
    ensures Partition(AddToGroup(r, id, gid)) && SameIds(r, AddToGroup(r, id, gid))
  {
    TimesIn(r.order, Server(id));
    assert Count(r, id) <= 1;
    AddToGroupKeepsPartitionIff(r, id, gid);
    if Adds(r, id, gid) {
      forall x ensures Count(r, x) == Count(AddToGroup(r, id, gid), x) {
        AddToGroupCounts(r, id, gid, x, gid);
      }
    }
  }

  // --------------------------------------------------------------- leaving a group

  lemma {:induction false} ServersTimes(ids: seq<int>, x: int, h: string)
    ensures Times(Servers(ids), Server(x)) == Times(ids, x) && Times(Servers(ids), GroupItem(h)) == 0
  {
    if ids != [] {
      ServersTimes(ids[1..], x, h);
    }
  }

  lemma {:induction false} GroupedAt(groups: seq<Group>, i: nat, id: int)
    requires i < |groups|
    ensures Times(groups[i].serverIds, id) <= Grouped(groups, id)
  {
    if i > 0 {
      GroupedAt(groups[1..], i - 1, id);
    }
  }

  predicate Leaves(r: Rail, id: int, gid: string) {
    var i := FindGroup(r.groups, gid);
    i.Some? && id in r.groups[i.value].serverIds
  }

  lemma RemoveCounts(r: Rail, id: int, gid: string, x: int, h: string)
    requires Partition(r) && Leaves(r, id, gid)
    ensures
      var t := RemoveFromGroup(r, id, gid);
      Count(t, x) == Count(r, x) && Times(t.order, GroupItem(h)) == Keys(t.groups, h) <= 1
  {
    var i := FindGroup(r.groups, gid).value;
    var g := r.groups[i];
    var remaining := Without(g.serverIds, id);
    var at := IndexOf(r.order, GroupItem(gid));
    assert Count(r, x) <= 1 && Times(r.order, GroupItem(h)) == Keys(r.groups, h) <= 1;
    GroupedAt(r.groups, i, x);
    TimesIn(g.serverIds, id);
    WithoutTimes(g.serverIds, id, x);
    KeysFound(r.groups, gid);
    assert Times(r.order, GroupItem(gid)) == Keys(r.groups, gid);
    TimesIn(r.order, GroupItem(gid));
    if |remaining| >= 2 {
      var smaller := g.(serverIds := remaining);
      ReplaceGroup(r.groups, i, [smaller], x, h);
      OneGroup(smaller, x, h);
      InsertBehindTimes(r.order, at, Server(id), Server(x));
      InsertBehindTimes(r.order, at, Server(id), GroupItem(h));
    } else {
      var items := Servers(remaining) + [Server(id)];
      ReplaceGroup(r.groups, i, [], x, h);
      ServersTimes(remaining, x, h);
      TimesConcat(Servers(remaining), [Server(id)], Server(x));
      TimesConcat(Servers(remaining), [Server(id)], GroupItem(h));
      ReplaceTimes(r.order, at.value, items, Server(x));
      ReplaceTimes(r.order, at.value, items, GroupItem(h));
    }
  }

  lemma InsertBehindTimes(order: seq<Item>, at: Option<nat>, item: Item, x: Item)
    requires at.Some? ==> at.value < |order|
    ensures Times(InsertBehind(order, at, item), x) == Times(order, x) + if item == x then 1 else 0
  {
    if at.Some? {
      var k := at.value + 1;
      assert order == order[..k] + order[k..];
      TimesConcat(order[..k], order[k..], x);
      TimesConcat(order[..k], [item] + order[k..], x);
      TimesConcat([item], order[k..], x);
    } else {
      TimesConcat([item], order, x);
    }
  }

  /** Taking a server out of a group always keeps the partition and conserves the ids. */
  lemma RemoveFromGroupConserves(r: Rail, id: int, gid: string)
    requires Partition(r)
    ensures Partition(RemoveFromGroup(r, id, gid)) && SameIds(r, RemoveFromGroup(r, id, gid))
  {
    if Leaves(r, id, gid) {
      var t := RemoveFromGroup(r, id, gid);
      forall x ensures Count(r, x) == Count(t, x) {
        RemoveCounts(r, id, gid, x, gid);
      }
      forall h ensures Times(t.order, GroupItem(h)) == Keys(t.groups, h) <= 1 {
        RemoveCounts(r, id, gid, id, h);
      }
    }
  }

  /** Collapsing and renaming touch neither the order nor the members. */
  lemma CosmeticsConserve(r: Rail, gid: string, title: string)
    requires Partition(r)
    ensures Partition(ToggleCollapsed(r, gid)) && SameIds(r, ToggleCollapsed(r, gid))
    ensures Partition(Rename(r, gid, title)) && SameIds(r, Rename(r, gid, title))
  {
    var i := FindGroup(r.groups, gid);
    if i.Some? {
      var g := r.groups[i.value];
      PutKeepsCounts(r, i.value, g.(collapsed := !g.collapsed));
      PutKeepsCounts(r, i.value, g.(title := title));
    }
  }

  lemma PutKeepsCounts(r: Rail, i: nat, g: Group)
    requires Partition(r) && i < |r.groups| && FindGroup(r.groups, g.id) == Some(i)
    requires g.serverIds == r.groups[i].serverIds
    ensures
      var t := r.(groups := PutGroup(r.groups, g));
      Partition(t) && SameIds(r, t)
  {
    var t := r.(groups := PutGroup(r.groups, g));
    forall x ensures Count(r, x) == Count(t, x) {
      ReplaceGroup(r.groups, i, [g], x, g.id);
      OneGroup(g, x, g.id);
    }
    forall h ensures Times(t.order, GroupItem(h)) == Keys(t.groups, h) <= 1 {
      ReplaceGroup(r.groups, i, [g], 0, h);
      OneGroup(g, 0, h);
    }
  }

  // ----------------------------------------------------------------- syncing servers

  function Elements<T>(xs: seq<T>): set<T> {
    set x | x in xs
  }

  function MembersOf(groups: seq<Group>, gid: string): seq<int> {
    var i := FindGroup(groups, gid);
    if i.Some? then groups[i.value].serverIds else []
  }

  /** The servers the top level shows, by themselves or in a group it shows. */
  function Known(order: seq<Item>, groups: seq<Group>): set<int> {
    if order == [] then {}
    else
      var n := |order| - 1;
      Known(order[..n], groups) +
      match order[n] { case Server(id) => {id} case GroupItem(gid) => Elements(MembersOf(groups, gid)) }
  }

  function Keeping(ids: seq<int>, removed: set<int>): seq<int> {
    if ids == [] then []
    else
      var n := |ids| - 1;
      Keeping(ids[..n], removed) + if ids[n] in removed then [] else [ids[n]]
  }

  /** Groups that keep two members or more stay, with those members. */
  function KeptGroups(groups: seq<Group>, removed: set<int>): seq<Group> {
    if groups == [] then []
    else
      var n := |groups| - 1;
      var left := Keeping(groups[n].serverIds, removed);
      var front := KeptGroups(groups[..n], removed);
      if |left| < 2 then front else front + [groups[n].(serverIds := left)]
  }

  /** The others are dissolved, in the order of the record. */
  function Dissolved(groups: seq<Group>, removed: set<int>): seq<Group> {
    if groups == [] then []
    else
      var n := |groups| - 1;
      var front := Dissolved(groups[..n], removed);
      if |Keeping(groups[n].serverIds, removed)| < 2 then front + [groups[n]] else front
  }

  function Survivors(dissolved: seq<Group>, removed: set<int>): seq<Item> {
    if dissolved == [] then []
    else
      var n := |dissolved| - 1;
      Survivors(dissolved[..n], removed) + Servers(Keeping(dissolved[n].serverIds, removed))
  }

  predicate Stays(item: Item, removed: set<int>, dissolved: seq<Group>) {
    match item
    case Server(id) => id !in removed
    case GroupItem(gid) => Keys(dissolved, gid) == 0
  }

  function KeptOrder(order: seq<Item>, removed: set<int>, dissolved: seq<Group>): seq<Item> {
    if order == [] then []
    else
      var n := |order| - 1;
      KeptOrder(order[..n], removed, dissolved) + if Stays(order[n], removed, dissolved) then [order[n]] else []
  }

  function SyncServers(r: Rail, ids: seq<int>): Rail {
    var known := Known(r.order, r.groups);
    var added, removed := Keeping(ids, known), known - Elements(ids);
    if added == [] && removed == {} then r
    else
      var dissolved := Dissolved(r.groups, removed);
      Rail(KeptOrder(r.order, removed, dissolved) + Survivors(dissolved, removed) + Servers(added),
           KeptGroups(r.groups, removed))
  }

  lemma {:induction false} KeepingTimes(ids: seq<int>, removed: set<int>, x: int)
    ensures Times(Keeping(ids, removed), x) == if x in removed then 0 else Times(ids, x)
  {
    if ids != [] {
      var n := |ids| - 1;
      KeepingTimes(ids[..n], removed, x);
      assert ids == ids[..n] + [ids[n]];
      TimesConcat(ids[..n], [ids[n]], x);
      TimesConcat(Keeping(ids[..n], removed), if ids[n] in removed then [] else [ids[n]], x);
    }
  }

  lemma {:induction false} KeptOrderTimes(order: seq<Item>, removed: set<int>, dissolved: seq<Group>, item: Item)
    ensures Times(KeptOrder(order, removed, dissolved), item) ==
      if Stays(item, removed, dissolved) then Times(order, item) else 0
  {
    if order != [] {
      var n := |order| - 1;
      KeptOrderTimes(order[..n], removed, dissolved, item);
      assert order == order[..n] + [order[n]];
      TimesConcat(order[..n], [order[n]], item);
      TimesConcat(KeptOrder(order[..n], removed, dissolved),
                  if Stays(order[n], removed, dissolved) then [order[n]] else [], item);
    }
  }

  lemma {:induction false} SurvivorsTimes(dissolved: seq<Group>, removed: set<int>, x: int, h: string)
    ensures Times(Survivors(dissolved, removed), Server(x)) == if x in removed then 0 else Grouped(dissolved, x)
    ensures Times(Survivors(dissolved, removed), GroupItem(h)) == 0
  {
    if dissolved != [] {
      var n := |dissolved| - 1;
      var left := Keeping(dissolved[n].serverIds, removed);
      SurvivorsTimes(dissolved[..n], removed, x, h);
      assert dissolved == dissolved[..n] + [dissolved[n]];
      GroupsConcat(dissolved[..n], [dissolved[n]], x, h);
      OneGroup(dissolved[n], x, h);
      KeepingTimes(dissolved[n].serverIds, removed, x);
      ServersTimes(left, x, h);
      TimesConcat(Survivors(dissolved[..n], removed), Servers(left), Server(x));
      TimesConcat(Survivors(dissolved[..n], removed), Servers(left), GroupItem(h));
    }
  }

  /** Every member that is not removed is in a kept group or a dissolved one. */
  lemma {:induction false} SplitMembers(groups: seq<Group>, removed: set<int>, x: int)
    ensures x !in removed ==>
      Grouped(KeptGroups(groups, removed), x) + Grouped(Dissolved(groups, removed), x) == Grouped(groups, x)
    ensures x in removed ==> Grouped(KeptGroups(groups, removed), x) == 0
  {
    if groups != [] {
      var front, g := groups[..|groups| - 1], groups[|groups| - 1];
      var left := g.(serverIds := Keeping(g.serverIds, removed));
      SplitMembers(front, removed, x);
      assert groups == front + [g];
      GroupsPush(front, g, x, "");
      KeepingTimes(g.serverIds, removed, x);
      GroupsPush(KeptGroups(front, removed), left, x, "");
      GroupsPush(Dissolved(front, removed), g, x, "");
    }
  }

  /** Every key is kept or dissolved, and what is kept is big enough. */
  lemma {:induction false} SplitKeys(groups: seq<Group>, removed: set<int>, h: string)
    ensures Keys(KeptGroups(groups, removed), h) + Keys(Dissolved(groups, removed), h) == Keys(groups, h)
    ensures BigEnough(KeptGroups(groups, removed))
  {
    if groups != [] {
      var front, g := groups[..|groups| - 1], groups[|groups| - 1];
      var left := g.(serverIds := Keeping(g.serverIds, removed));
      SplitKeys(front, removed, h);
      assert groups == front + [g];
      GroupsPush(front, g, 0, h);
      GroupsPush(KeptGroups(front, removed), left, 0, h);
      GroupsPush(Dissolved(front, removed), g, 0, h);
    }
  }

  predicate Shows(item: Item, groups: seq<Group>, x: int) {
    match item
    case Server(id) => id == x
    case GroupItem(gid) => x in MembersOf(groups, gid)
  }

  lemma {:induction false} KnownMember(order: seq<Item>, groups: seq<Group>, x: int)
    ensures x in Known(order, groups) <==> exists item :: item in order && Shows(item, groups, x)
  {
    if order != [] {
      var n := |order| - 1;
      KnownMember(order[..n], groups, x);
      assert order == order[..n] + [order[n]];
      assert x in Known(order, groups) <==> x in Known(order[..n], groups) || Shows(order[n], groups, x);
    }
  }

  lemma {:induction false} GroupedMember(groups: seq<Group>, x: int)
    ensures Grouped(groups, x) > 0 <==> exists g :: g in groups && x in g.serverIds
  {
    if groups != [] {
      GroupedMember(groups[1..], x);
      TimesIn(groups[0].serverIds, x);
      assert groups == [groups[0]] + groups[1..];
    }
  }

  lemma {:induction false} UniqueKeyFinds(groups: seq<Group>, i: nat)
    requires i < |groups| && Keys(groups, groups[i].id) <= 1
    ensures FindGroup(groups, groups[i].id) == Some(i)
  {
    if i > 0 {
      var gid := groups[i].id;
      KeysFound(groups[1..], gid);
      assert groups[1..][i - 1] in groups[1..];
      UniqueKeyFinds(groups[1..], i - 1);
    }
  }

  lemma KnownIsCounted(r: Rail, x: int)
    requires GroupsMatch(r)
    ensures x in Known(r.order, r.groups) <==> Count(r, x) > 0
  {
    KnownMember(r.order, r.groups, x);
    TimesIn(r.order, Server(x));
    GroupedMember(r.groups, x);
    if g :| g in r.groups && x in g.serverIds {
      var i :| 0 <= i < |r.groups| && r.groups[i] == g;
      assert Times(r.order, GroupItem(g.id)) == Keys(r.groups, g.id);
      UniqueKeyFinds(r.groups, i);
      KeysFound(r.groups, g.id);
      TimesIn(r.order, GroupItem(g.id));
      assert Shows(GroupItem(g.id), r.groups, x);
    }
    assert Shows(Server(x), r.groups, x);
  }

  predicate Changes(r: Rail, ids: seq<int>) {
    var known := Known(r.order, r.groups);
    Keeping(ids, known) != [] || known - Elements(ids) != {}
  }

  lemma SyncCounts(r: Rail, ids: seq<int>, x: int, h: string)
    requires Partition(r) && (forall id :: Times(ids, id) <= 1) && Changes(r, ids)
    ensures Count(SyncServers(r, ids), x) == Times(ids, x)
    ensures Times(SyncServers(r, ids).order, GroupItem(h)) == Keys(SyncServers(r, ids).groups, h) <= 1
    ensures BigEnough(SyncServers(r, ids).groups)
  {
    var known := Known(r.order, r.groups);
    var added, removed := Keeping(ids, known), known - Elements(ids);
    var dissolved := Dissolved(r.groups, removed);
    var kept, rest := KeptOrder(r.order, removed, dissolved), Survivors(dissolved, removed);
    assert Count(r, x) <= 1 && Times(ids, x) <= 1 && Times(r.order, GroupItem(h)) == Keys(r.groups, h) <= 1;
    KnownIsCounted(r, x);
    TimesIn(ids, x);
    KeepingTimes(ids, known, x);
    SplitMembers(r.groups, removed, x);
    SplitKeys(r.groups, removed, h);
    KeptOrderTimes(r.order, removed, dissolved, Server(x));
    KeptOrderTimes(r.order, removed, dissolved, GroupItem(h));
    SurvivorsTimes(dissolved, removed, x, h);
    ServersTimes(added, x, h);
    TimesConcat(kept, rest, Server(x));
    TimesConcat(kept, rest, GroupItem(h));
    TimesConcat(kept + rest, Servers(added), Server(x));
    TimesConcat(kept + rest, Servers(added), GroupItem(h));
  }

  /** A sync keeps the partition and makes the rail show exactly the given servers. */
  lemma SyncShowsExactly(r: Rail, ids: seq<int>)
    requires Partition(r) && forall id :: Times(ids, id) <= 1
    ensures Partition(SyncServers(r, ids))
    ensures forall x :: Count(SyncServers(r, ids), x) == Times(ids, x)
  {
    var t := SyncServers(r, ids);
    if Changes(r, ids) {
      forall x ensures Count(t, x) == Times(ids, x) <= 1 {
        SyncCounts(r, ids, x, "");
      }
      forall h ensures Times(t.order, GroupItem(h)) == Keys(t.groups, h) <= 1 {
        SyncCounts(r, ids, 0, h);
      }
      SyncCounts(r, ids, 0, "");
    } else {
      UnchangedIsExact(r, ids);
    }
  }

  lemma UnchangedIsExact(r: Rail, ids: seq<int>)
    requires Partition(r) && (forall id :: Times(ids, id) <= 1) && !Changes(r, ids)
    ensures forall x :: Count(r, x) == Times(ids, x)
  {
    forall x ensures Count(r, x) == Times(ids, x) {
      KnownIsCounted(r, x);
      KeepingTimes(ids, Known(r.order, r.groups), x);
      TimesIn(ids, x);
      assert Count(r, x) <= 1 && Times(ids, x) <= 1;
      assert x !in Known(r.order, r.groups) - Elements(ids);
    }
  }

  // ------------------------------------------------------------------- relative order

  /** Whatever of `xs` is in `ys` stands there in the same order. */
  ghost predicate KeepsOrder<T(!new)>(xs: seq<T>, ys: seq<T>) {
    forall i, j :: 0 <= i < j < |xs| && xs[i] in ys && xs[j] in ys ==> Before(ys, xs[i], xs[j])
  }

  ghost predicate Before<T(!new)>(ys: seq<T>, x: T, y: T) {
    exists p, q :: 0 <= p < q < |ys| && ys[p] == x && ys[q] == y
  }

  lemma {:induction false} KeptOrderIn(order: seq<Item>, removed: set<int>, dissolved: seq<Group>, item: Item)
    ensures item in KeptOrder(order, removed, dissolved) <==> item in order && Stays(item, removed, dissolved)
  {
    KeptOrderTimes(order, removed, dissolved, item);
    TimesIn(order, item);
    TimesIn(KeptOrder(order, removed, dissolved), item);
  }

  lemma {:induction false} KeptOrderBefore(order: seq<Item>, removed: set<int>, dissolved: seq<Group>, i: nat, j: nat)
    requires i < j < |order| && Stays(order[i], removed, dissolved) && Stays(order[j], removed, dissolved)
    ensures Before(KeptOrder(order, removed, dissolved), order[i], order[j])
  {
    var n := |order| - 1;
    var front, kept := KeptOrder(order[..n], removed, dissolved), KeptOrder(order, removed, dissolved);
    assert front <= kept;
    if j < n {
      KeptOrderBefore(order[..n], removed, dissolved, i, j);
      var p, q :| 0 <= p < q < |front| && front[p] == order[i] && front[q] == order[j];
      assert kept[p] == order[i] && kept[q] == order[j];
    } else {
      KeptOrderIn(order[..n], removed, dissolved, order[i]);
      assert order[..n][i] == order[i];
      var p :| 0 <= p < |front| && front[p] == order[i];
      assert kept[p] == order[i] && kept[|front|] == order[j];
    }
  }

  /** A sync leaves the items it keeps in the order they had, and adds behind them. */
  lemma SyncKeepsOrder(r: Rail, ids: seq<int>)
    requires Partition(r) && forall id :: Times(ids, id) <= 1
    ensures KeepsOrder(r.order, SyncServers(r, ids).order)
  {
    var t := SyncServers(r, ids);
    forall i, j | 0 <= i < j < |r.order| && r.order[i] in t.order && r.order[j] in t.order
      ensures Before(t.order, r.order[i], r.order[j])
    {
      if Changes(r, ids) {
        var removed := Known(r.order, r.groups) - Elements(ids);
        var dissolved := Dissolved(r.groups, removed);
        ShownStays(r, ids, r.order[i]);
        ShownStays(r, ids, r.order[j]);
        KeptOrderBefore(r.order, removed, dissolved, i, j);
        var kept := KeptOrder(r.order, removed, dissolved);
        var p, q :| 0 <= p < q < |kept| && kept[p] == r.order[i] && kept[q] == r.order[j];
        assert t.order[p] == kept[p] && t.order[q] == kept[q];
      }
    }
  }

  lemma ShownStays(r: Rail, ids: seq<int>, item: Item)
    requires Partition(r) && (forall id :: Times(ids, id) <= 1) && Changes(r, ids)
    requires item in r.order && item in SyncServers(r, ids).order
    ensures
      var removed := Known(r.order, r.groups) - Elements(ids);
      Stays(item, removed, Dissolved(r.groups, removed))
  {
    var t := SyncServers(r, ids);
    var removed := Known(r.order, r.groups) - Elements(ids);
    TimesIn(t.order, item);
    match item
    case Server(id) =>
      SyncCounts(r, ids, id, "");
      TimesIn(ids, id);
    case GroupItem(gid) =>
      SyncCounts(r, ids, 0, gid);
      SplitKeys(r.groups, removed, gid);
      assert Times(r.order, item) == Keys(r.groups, gid) <= 1;
  }
}
