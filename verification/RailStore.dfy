/** The store behind the rail: its actions, loop by loop. */
module RailStore {
  import opened Wrappers
  import opened ServerRail

  class ServerRailStore {
    var order: seq<Item>
    var groups: seq<Group>

    constructor ()
      ensures View() == Rail([], []) && Partition(View())
    {
      order := [];
      groups := [];
    }

    function View(): Rail
      reads this
    {
      Rail(order, groups)
    }

    method KnownIds() returns (known: set<int>)
      ensures known == Known(order, groups)
    {
      known := {};
      for n := 0 to |order|
        invariant known == Known(order[..n], groups)
      {
        assert order[..n + 1][..n] == order[..n];
        match order[n] {
          case Server(id) => known := known + {id};
          case GroupItem(gid) => known := known + Elements(MembersOf(groups, gid));
        }
      }
      assert order[..|order|] == order;
    }

    method SplitRecord(removed: set<int>) returns (kept: seq<Group>, dissolved: seq<Group>)
      ensures kept == KeptGroups(groups, removed) && dissolved == Dissolved(groups, removed)
    {
      kept, dissolved := [], [];
      for n := 0 to |groups|
        invariant kept == KeptGroups(groups[..n], removed) && dissolved == Dissolved(groups[..n], removed)
      {
        assert groups[..n + 1][..n] == groups[..n];
        var left := Keeping(groups[n].serverIds, removed);
        if |left| < 2 {
          dissolved := dissolved + [groups[n]];
        } else {
          kept := kept + [groups[n].(serverIds := left)];
        }
      }
      assert groups[..|groups|] == groups;
    }

    /** The members of dissolved groups move to the end of the top level. */
    method Release(shown: seq<Item>, dissolved: seq<Group>, removed: set<int>) returns (newOrder: seq<Item>)
      ensures newOrder == shown + Survivors(dissolved, removed)
    {
      newOrder := shown;
      for n := 0 to |dissolved|
        invariant newOrder == shown + Survivors(dissolved[..n], removed)
      {
        assert dissolved[..n + 1][..n] == dissolved[..n];
        newOrder := newOrder + Servers(Keeping(dissolved[n].serverIds, removed));
      }
      assert dissolved[..|dissolved|] == dissolved;
    }

    method SyncServers(ids: seq<int>)
      modifies this
      ensures View() == ServerRail.SyncServers(old(View()), ids)
    {
      var known := KnownIds();
      var added, removed := Keeping(ids, known), known - Elements(ids);
      if added == [] && removed == {} {
        return;
      }
      var kept, dissolved := SplitRecord(removed);
      var newOrder := Release(KeptOrder(order, removed, dissolved), dissolved, removed);
      order, groups := newOrder + Servers(added), kept;
    }

    method CreateGroup(source: int, target: int, gid: string)
      modifies this
      ensures View() == ServerRail.CreateGroup(old(View()), source, target, gid)
    {
      var newOrder := Without(order, Server(source));
      var at := IndexOf(newOrder, Server(target));
      if at.Some? {
        order := newOrder[..at.value] + [GroupItem(gid)] + newOrder[at.value + 1..];
      } else {
        order := [GroupItem(gid)] + newOrder;
      }
      groups := PutGroup(groups, Group(gid, "Group", [target, source], false));
    }

    method AddToGroup(id: int, gid: string)
      modifies this
      ensures View() == ServerRail.AddToGroup(old(View()), id, gid)
    {
      var i := FindGroup(groups, gid);
      if i.None? || id in groups[i.value].serverIds {
        return;
      }
      order := Without(order, Server(id));
      groups := PutGroup(groups, groups[i.value].(serverIds := groups[i.value].serverIds + [id]));
    }

    method RemoveFromGroup(id: int, gid: string)
      modifies this
      ensures View() == ServerRail.RemoveFromGroup(old(View()), id, gid)
      ensures old(Partition(View())) ==> Partition(View())
    {
      ghost var before := View();
      var i := FindGroup(groups, gid);
      if i.Some? && id in groups[i.value].serverIds {
        var g := groups[i.value];
        var remaining := Without(g.serverIds, id);
        var at := IndexOf(order, GroupItem(gid));
        if |remaining| >= 2 {
          order := InsertBehind(order, at, Server(id));
          groups := PutGroup(groups, g.(serverIds := remaining));
        } else {
          order := if at.Some? then Replace(order, at.value, Servers(remaining) + [Server(id)])
                   else order + (Servers(remaining) + [Server(id)]);
          groups := Replace(groups, i.value, []);
        }
      }
      if Partition(before) {
        RemoveFromGroupConserves(before, id, gid);
      }
    }
  }
}
