/** What each action of the server rail does to it, place by place. */
module RailEffects {
  import opened Wrappers
  import opened ServerRail

  // ------------------------------------------------------------------ finding things

  lemma {:induction false} UniqueIndex<T>(xs: seq<T>, k: nat)
    requires k < |xs| && Times(xs, xs[k]) <= 1
    ensures IndexOf(xs, xs[k]) == Some(k)
  {
    if k > 0 {
      TimesIn(xs[1..], xs[k]);
      assert xs[1..][k - 1] == xs[k];
      UniqueIndex(xs[1..], k - 1);
    }
  }

  lemma {:induction false} WithoutAbsent<T>(xs: seq<T>, x: T)
    requires x !in xs
    ensures Without(xs, x) == xs
  {
    if xs != [] {
      assert forall y :: y in xs[1..] ==> y in xs;
      WithoutAbsent(xs[1..], x);
    }
  }

  lemma {:induction false} WithoutConcat<T>(xs: seq<T>, ys: seq<T>, x: T)
    ensures Without(xs + ys, x) == Without(xs, x) + Without(ys, x)
  {
    if xs == [] {
      assert xs + ys == ys;
    } else {
      assert (xs + ys)[1..] == xs[1..] + ys;
      WithoutConcat(xs[1..], ys, x);
    }
  }

  lemma OneTime<T>(x: T)
    ensures Times([x], x) == 1 && Without([x], x) == []
  {
    assert [x][1..] == [];
  }

  /** What occurs once leaves a gap. */
  lemma WithoutOnce<T>(a: seq<T>, x: T, b: seq<T>)
    requires Times(a + [x] + b, x) <= 1
    ensures Without(a + [x] + b, x) == a + b
  {
    OnceOnly(a, x, b);
    OneTime(x);
    WithoutConcat(a + [x], b, x);
    WithoutConcat(a, [x], x);
    WithoutAbsent(a, x);
    WithoutAbsent(b, x);
    assert Without(a + [x], x) == a + [] == a;
  }

  lemma OnceOnly<T>(a: seq<T>, x: T, b: seq<T>)
    requires Times(a + [x] + b, x) <= 1
    ensures x !in a && x !in b
  {
    TimesConcat(a + [x], b, x);
    TimesConcat(a, [x], x);
    OneTime(x);
    TimesIn(a, x);
    TimesIn(b, x);
  }

  /** The place of a group is unique, in the record and on the top level. */
  lemma GroupIsFound(r: Rail, i: nat)
    requires GroupsMatch(r) && i < |r.groups|
    ensures FindGroup(r.groups, r.groups[i].id) == Some(i)
    ensures exists k :: 0 <= k < |r.order| && r.order[k] == GroupItem(r.groups[i].id)
    ensures forall k :: 0 <= k < |r.order| && r.order[k] == GroupItem(r.groups[i].id) ==>
      IndexOf(r.order, GroupItem(r.groups[i].id)) == Some(k)
  {
    var gid := r.groups[i].id;
    assert Times(r.order, GroupItem(gid)) == Keys(r.groups, gid) <= 1;
    UniqueKeyFinds(r.groups, i);
    KeysFound(r.groups, gid);
    TimesIn(r.order, GroupItem(gid));
    forall k | 0 <= k < |r.order| && r.order[k] == GroupItem(gid) ensures IndexOf(r.order, GroupItem(gid)) == Some(k) {
      UniqueIndex(r.order, k);
    }
  }

  lemma ServerIsFound(r: Rail, k: nat)
    requires Unique(r) && k < |r.order| && r.order[k].Server?
    ensures IndexOf(r.order, r.order[k]) == Some(k)
    ensures Without(r.order, r.order[k]) == r.order[..k] + r.order[k + 1..]
    ensures Grouped(r.groups, r.order[k].id) == 0
  {
    var id := r.order[k].id;
    assert Count(r, id) <= 1;
    TimesIn(r.order, Server(id));
    UniqueIndex(r.order, k);
    assert r.order == r.order[..k] + [Server(id)] + r.order[k + 1..];
    WithoutOnce(r.order[..k], Server(id), r.order[k + 1..]);
  }

  // ------------------------------------------------------------------ leaving a group

  /**
    Taking a server out of its group. If two members or more remain they keep
    the group, and the server stands right behind it; otherwise the remaining
    member and then the server stand in the place of the group, which is gone.
  */
  lemma RemoveFromGroupMeans(r: Rail, i: nat, k: nat, a: seq<int>, id: int, b: seq<int>)
    requires Partition(r) && i < |r.groups| && r.groups[i].serverIds == a + [id] + b
    requires k < |r.order| && r.order[k] == GroupItem(r.groups[i].id)
    ensures
      var g, t := r.groups[i], RemoveFromGroup(r, id, r.groups[i].id);
      && Server(id) in t.order && Grouped(t.groups, id) == 0
      && (|a + b| >= 2 ==>
            && t.order == r.order[..k + 1] + [Server(id)] + r.order[k + 1..]
            && t.groups == r.groups[i := Group(g.id, g.title, a + b, g.collapsed)])
      && (|a + b| < 2 ==>
            && |a + b| == 1 && t.order == r.order[..k] + [Server((a + b)[0]), Server(id)] + r.order[k + 1..]
            && t.groups == r.groups[..i] + r.groups[i + 1..])
  {
    RemovedIsTopLevel(r, i, k, id);
    OthersRemain(r, i, a, id, b);
    RemovedStands(r, i, k, id, a + b);
  }

  lemma OthersRemain(r: Rail, i: nat, a: seq<int>, id: int, b: seq<int>)
    requires Partition(r) && i < |r.groups| && r.groups[i].serverIds == a + [id] + b
    ensures Without(r.groups[i].serverIds, id) == a + b && |a + b| >= 1
  {
    assert r.groups[i] in r.groups;
    assert Count(r, id) <= 1;
    GroupedAt(r.groups, i, id);
    WithoutOnce(a, id, b);
  }

  lemma RemovedStands(r: Rail, i: nat, k: nat, id: int, rest: seq<int>)
    requires GroupsMatch(r) && i < |r.groups| && id in r.groups[i].serverIds
    requires k < |r.order| && r.order[k] == GroupItem(r.groups[i].id)
    requires rest == Without(r.groups[i].serverIds, id) && |rest| >= 1
    ensures
      var g, t := r.groups[i], RemoveFromGroup(r, id, r.groups[i].id);
      && (|rest| >= 2 ==>
            && t.order == r.order[..k + 1] + [Server(id)] + r.order[k + 1..]
            && t.groups == r.groups[i := g.(serverIds := rest)])
      && (|rest| < 2 ==>
            && t.order == r.order[..k] + [Server(rest[0]), Server(id)] + r.order[k + 1..]
            && t.groups == r.groups[..i] + r.groups[i + 1..])
  {
    GroupIsFound(r, i);
    ReplaceIsUpdate(r.groups, i, r.groups[i].(serverIds := rest));
    if |rest| == 1 {
      OneServer(rest, id);
    }
  }

  lemma OneServer(rest: seq<int>, id: int)
    requires |rest| == 1
    ensures Servers(rest) + [Server(id)] == [Server(rest[0]), Server(id)]
  {
    assert rest[1..] == [] && Servers([]) == [];
  }

  lemma ReplaceIsUpdate(groups: seq<Group>, i: nat, g: Group)
    requires i < |groups|
    ensures Replace(groups, i, [g]) == groups[i := g]
  {
  }

  lemma RemovedIsTopLevel(r: Rail, i: nat, k: nat, id: int)
    requires Partition(r) && i < |r.groups| && id in r.groups[i].serverIds
    requires k < |r.order| && r.order[k] == GroupItem(r.groups[i].id)
    ensures
      var t := RemoveFromGroup(r, id, r.groups[i].id);
      Server(id) in t.order && Grouped(t.groups, id) == 0
  {
    var t := RemoveFromGroup(r, id, r.groups[i].id);
    GroupIsFound(r, i);
    RemoveFromGroupConserves(r, id, r.groups[i].id);
    assert Count(t, id) <= 1;
    assert Server(id) in t.order;
    TimesIn(t.order, Server(id));
  }

  /** A server the group does not have is not taken out of it. */
  lemma RemoveFromGroupIgnores(r: Rail, id: int, gid: string)
    ensures id !in MembersOf(r.groups, gid) ==> RemoveFromGroup(r, id, gid) == r
    ensures Partition(r) && id in MembersOf(r.groups, gid) ==>
      exists i, k, a, b ::
        && 0 <= i < |r.groups| && r.groups[i].id == gid && r.groups[i].serverIds == a + [id] + b
        && 0 <= k < |r.order| && r.order[k] == GroupItem(gid)
  {
    if Partition(r) && id in MembersOf(r.groups, gid) {
      var i := FindGroup(r.groups, gid).value;
      var ids := r.groups[i].serverIds;
      var j :| 0 <= j < |ids| && ids[j] == id;
      assert ids == ids[..j] + [id] + ids[j + 1..];
      GroupIsFound(r, i);
      var k :| 0 <= k < |r.order| && r.order[k] == GroupItem(gid);
    }
  }

  // ------------------------------------------------------------------- making and growing

  /** A new group stands in the place of its target and has the target and then the source as members. */
  lemma CreateGroupMeans(r: Rail, j: nat, k: nat, gid: string)
    requires Partition(r) && FindGroup(r.groups, gid).None?
    requires j < |r.order| && k < |r.order| && j != k && r.order[j].Server? && r.order[k].Server?
    ensures
      var t := CreateGroup(r, r.order[j].id, r.order[k].id, gid);
      && t.order == (if j < k then r.order[..j] + r.order[j + 1..k] + [GroupItem(gid)] + r.order[k + 1..]
                     else r.order[..k] + [GroupItem(gid)] + r.order[k + 1..j] + r.order[j + 1..])
      && t.groups == r.groups + [Group(gid, "Group", [r.order[k].id, r.order[j].id], false)]
  {
    ServerIsFound(r, j);
    var at := if j < k then k - 1 else k;
    TargetIsFound(r, j, k);
    if j < k {
      SpliceBehind(r.order, j, k, GroupItem(gid));
    } else {
      SpliceAhead(r.order, j, k, GroupItem(gid));
    }
  }

  lemma SpliceBehind<T>(xs: seq<T>, j: nat, k: nat, y: T)
    requires j < k < |xs|
    ensures Replace(xs[..j] + xs[j + 1..], k - 1, [y]) == xs[..j] + xs[j + 1..k] + [y] + xs[k + 1..]
  {
    assert (xs[..j] + xs[j + 1..])[..k - 1] == xs[..j] + xs[j + 1..k];
  }

  lemma SpliceAhead<T>(xs: seq<T>, j: nat, k: nat, y: T)
    requires k < j < |xs|
    ensures Replace(xs[..j] + xs[j + 1..], k, [y]) == xs[..k] + [y] + xs[k + 1..j] + xs[j + 1..]
  {
    assert (xs[..j] + xs[j + 1..])[k + 1..] == xs[k + 1..j] + xs[j + 1..];
  }

  lemma TargetIsFound(r: Rail, j: nat, k: nat)
    requires Unique(r) && j < |r.order| && k < |r.order| && j != k && r.order[j].Server? && r.order[k].Server?
    ensures IndexOf(r.order[..j] + r.order[j + 1..], r.order[k]) == Some(if j < k then k - 1 else k)
  {
    ServerIsFound(r, j);
    var order := r.order[..j] + r.order[j + 1..];
    var at := if j < k then k - 1 else k;
    assert order[at] == r.order[k];
    WithoutTimes(r.order, r.order[j], r.order[k]);
    assert Count(r, r.order[k].id) <= 1;
    UniqueIndex(order, at);
  }

  /** When the target is not on the top level the new group stands in front. */
  lemma CreateGroupInFront(r: Rail, j: nat, target: int, gid: string)
    requires Partition(r) && FindGroup(r.groups, gid).None? && j < |r.order| && r.order[j].Server?
    requires Server(target) !in r.order
    ensures
      CreateGroup(r, r.order[j].id, target, gid) ==
        Rail([GroupItem(gid)] + r.order[..j] + r.order[j + 1..],
             r.groups + [Group(gid, "Group", [target, r.order[j].id], false)])
  {
    ServerIsFound(r, j);
    assert [GroupItem(gid)] + (r.order[..j] + r.order[j + 1..]) ==
      [GroupItem(gid)] + r.order[..j] + r.order[j + 1..];
  }

  /** A server added to a group leaves the top level and becomes its last member. */
  lemma AddToGroupMeans(r: Rail, i: nat, k: nat)
    requires Partition(r) && i < |r.groups| && k < |r.order| && r.order[k].Server?
    ensures
      var g, id := r.groups[i], r.order[k].id;
      AddToGroup(r, id, g.id) ==
        Rail(r.order[..k] + r.order[k + 1..],
             r.groups[i := Group(g.id, g.title, g.serverIds + [id], g.collapsed)])
  {
    var g, id := r.groups[i], r.order[k].id;
    GroupIsFound(r, i);
    ServerIsFound(r, k);
    GroupedAt(r.groups, i, id);
    TimesIn(g.serverIds, id);
    ReplaceIsUpdate(r.groups, i, g.(serverIds := g.serverIds + [id]));
  }

  /** Nothing is added to an unknown group, nor to one that has the server. */
  lemma AddToGroupIgnores(r: Rail, id: int, gid: string)
    requires FindGroup(r.groups, gid).None? || id in MembersOf(r.groups, gid)
    ensures AddToGroup(r, id, gid) == r
  {
  }

  // ------------------------------------------------------------------------ cosmetics

  /** Collapsing flips the one flag and renaming sets the one title; for an unknown group nothing changes. */
  lemma CosmeticsMean(r: Rail, i: nat, title: string, gid: string)
    requires GroupsMatch(r) && i < |r.groups|
    ensures
      var g := r.groups[i];
      && ToggleCollapsed(r, g.id) == r.(groups := r.groups[i := Group(g.id, g.title, g.serverIds, !g.collapsed)])
      && Rename(r, g.id, title) == r.(groups := r.groups[i := Group(g.id, title, g.serverIds, g.collapsed)])
    ensures FindGroup(r.groups, gid).None? ==> ToggleCollapsed(r, gid) == Rename(r, gid, title) == r
  {
    var g := r.groups[i];
    GroupIsFound(r, i);
    ReplaceIsUpdate(r.groups, i, g.(collapsed := !g.collapsed));
    ReplaceIsUpdate(r.groups, i, g.(title := title));
  }

  // --------------------------------------------------------------------------- syncing

  /** The members the new list still has. */
  function Present(members: seq<int>, ids: seq<int>): seq<int> {
    if members == [] then []
    else
      var n := |members| - 1;
      Present(members[..n], ids) + if members[n] in ids then [members[n]] else []
  }

  /** The servers of the list the rail does not show yet. */
  function New(r: Rail, ids: seq<int>): seq<int> {
    if ids == [] then []
    else
      var n := |ids| - 1;
      New(r, ids[..n]) + if Count(r, ids[n]) == 0 then [ids[n]] else []
  }

  lemma {:induction false} NewIsKept(r: Rail, ids: seq<int>)
    requires GroupsMatch(r)
    ensures Keeping(ids, Known(r.order, r.groups)) == New(r, ids)
  {
    if ids != [] {
      NewIsKept(r, ids[..|ids| - 1]);
      KnownIsCounted(r, ids[|ids| - 1]);
    }
  }

  lemma {:induction false} PresentIsKept(members: seq<int>, removed: set<int>, ids: seq<int>)
    requires forall x :: x in members ==> (x in removed <==> x !in ids)
    ensures Keeping(members, removed) == Present(members, ids)
  {
    if members != [] {
      var n := |members| - 1;
      var last := members[n];
      assert last in members && forall x :: x in members[..n] ==> x in members;
      PresentIsKept(members[..n], removed, ids);
    }
  }

  lemma {:induction false} KeptGroupIn(groups: seq<Group>, removed: set<int>, i: nat)
    requires i < |groups|
    ensures
      var left := Keeping(groups[i].serverIds, removed);
      && (|left| >= 2 ==> groups[i].(serverIds := left) in KeptGroups(groups, removed))
      && (|left| < 2 ==> groups[i] in Dissolved(groups, removed))
  {
    var n := |groups| - 1;
    if i < n {
      KeptGroupIn(groups[..n], removed, i);
    }
  }

  lemma {:induction false} SurvivorIn(dissolved: seq<Group>, removed: set<int>, g: Group, x: int)
    requires g in dissolved && x in Keeping(g.serverIds, removed)
    ensures Server(x) in Survivors(dissolved, removed)
  {
    TimesIn(Survivors(dissolved, removed), Server(x));
    SurvivorsTimes(dissolved, removed, x, "");
    GroupedMember(dissolved, x);
    KeepingTimes(g.serverIds, removed, x);
    TimesIn(g.serverIds, x);
    TimesIn(Keeping(g.serverIds, removed), x);
  }

  /**
    What a sync makes of a group: two members or more that the list still has
    keep it, its title and whether it is collapsed; otherwise it is dissolved
    and a member that is left stands on the top level.
  */
  lemma SyncKeepsGroup(r: Rail, ids: seq<int>, i: nat)
    requires Partition(r) && (forall id :: Times(ids, id) <= 1) && i < |r.groups|
    ensures
      var g, t := r.groups[i], SyncServers(r, ids);
      var left := Present(g.serverIds, ids);
      && (|left| >= 2 ==> Group(g.id, g.title, left, g.collapsed) in t.groups)
      && (|left| < 2 ==> FindGroup(t.groups, g.id).None? && forall x :: x in left ==> Server(x) in t.order)
  {
    var g, t := r.groups[i], SyncServers(r, ids);
    var known := Known(r.order, r.groups);
    var removed := known - Elements(ids);
    forall x | x in g.serverIds ensures x in known {
      KnownIsCounted(r, x);
      TimesIn(g.serverIds, x);
      GroupedAt(r.groups, i, x);
    }
    PresentIsKept(g.serverIds, removed, ids);
    if Changes(r, ids) {
      KeptGroupIn(r.groups, removed, i);
      if |Present(g.serverIds, ids)| < 2 {
        DissolvedIsGone(r, removed, g);
        forall x | x in Present(g.serverIds, ids) ensures Server(x) in t.order {
          SurvivorIn(Dissolved(r.groups, removed), removed, g, x);
        }
      }
    } else {
      assert g in r.groups && removed == {};
      KeepingAll(g.serverIds);
    }
  }

  lemma {:induction false} KeepingAll(xs: seq<int>)
    ensures Keeping(xs, {}) == xs
  {
    if xs != [] {
      KeepingAll(xs[..|xs| - 1]);
    }
  }

  lemma DissolvedIsGone(r: Rail, removed: set<int>, g: Group)
    requires GroupsMatch(r) && g in Dissolved(r.groups, removed)
    ensures FindGroup(KeptGroups(r.groups, removed), g.id).None?
  {
    var dissolved, kept := Dissolved(r.groups, removed), KeptGroups(r.groups, removed);
    assert Times(r.order, GroupItem(g.id)) == Keys(r.groups, g.id) <= 1;
    SplitKeys(r.groups, removed, g.id);
    KeysFound(dissolved, g.id);
    KeysFound(kept, g.id);
  }

  /** A sync puts the servers the rail does not show yet at the end, in the order of the list. */
  lemma SyncAppendsNew(r: Rail, ids: seq<int>)
    requires Partition(r)
    ensures exists front :: SyncServers(r, ids).order == front + Servers(New(r, ids))
    ensures (forall x :: Count(r, x) > 0 <==> x in ids) ==> SyncServers(r, ids) == r
  {
    var t := SyncServers(r, ids);
    NewIsKept(r, ids);
    if Changes(r, ids) {
      var removed := Known(r.order, r.groups) - Elements(ids);
      var dissolved := Dissolved(r.groups, removed);
      assert t.order == KeptOrder(r.order, removed, dissolved) + Survivors(dissolved, removed) + Servers(New(r, ids));
    } else {
      assert t.order == r.order + Servers(New(r, ids));
    }
    if forall x :: Count(r, x) > 0 <==> x in ids {
      ShownHasNoNew(r, ids);
      forall x ensures x !in Known(r.order, r.groups) - Elements(ids) {
        KnownIsCounted(r, x);
      }
    }
  }

  lemma {:induction false} ShownHasNoNew(r: Rail, ids: seq<int>)
    requires forall x :: x in ids ==> Count(r, x) > 0
    ensures New(r, ids) == []
  {
    if ids != [] {
      assert forall x :: x in ids[..|ids| - 1] ==> x in ids;
      ShownHasNoNew(r, ids[..|ids| - 1]);
    }
  }
}
