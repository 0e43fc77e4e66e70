/** The admin sidebar: a fixed list of entries, some of them groups with
    children, which groups are expanded, which entry is highlighted for the
    current location, and where a click leads. */
module Sidebar {
  import opened Js

  /** `name` is the entry's `label`. */
  datatype Child = Child(name: string, path: Option<string>)

  /** An entry is a group when it has `children` (an empty list counts: an
      array is truthy), otherwise a leaf that may have a `path`. */
  datatype Item = Item(name: string, path: Option<string>, children: Option<seq<Child>>)

  /** What a click hands to code outside the component: the router's
      `navigate` and the `onClose` callback. */
  datatype Call = Navigate(to: string) | Close

  function Leaf(name: string, path: string): Item
  {
    Item(name, Some(path), None)
  }

  function Group(name: string, children: seq<Child>): Item
  {
    Item(name, None, Some(children))
  }

  const Dashboard: Item := Leaf("Dashboard", "/dashboard")
  const Management: Item := Group("Management", [
    Child("Users", Some("/management/users")),
    Child("Mechanics", Some("/management/mechanics")),
    Child("Workshops", Some("/management/workshops"))])
  const Vehicles: Item := Group("Vehicles", [
    Child("Cars", Some("/vehicles/cars")),
    Child("Brands", Some("/vehicles/brands")),
    Child("Models", Some("/vehicles/models")),
    Child("Body Types", Some("/vehicles/body-types"))])
  const Finance: Item := Group("Finance", [
    Child("Payments", Some("/finance/payments")),
    Child("Plans", Some("/services/plans")),
    Child("Subscriptions", Some("/services/subscriptions"))])
  const ServicesList: Item := Leaf("Services List", "/services/list")
  const Feedback: Item := Group("Feedback", [
    Child("Reviews", Some("/feedback/reviews")),
    Child("Comments", Some("/feedback/comments"))])
  const Reports: Item := Leaf("Reports", "/reports")
  const SystemSettings: Item := Leaf("Settings", "/system/settings")
  const Notifications: Item := Leaf("Notifications", "/system/notifications")
  const Maintenance: Item := Leaf("Maintenance", "/system/maintenance")

  /** `SIDEBAR_ITEMS`, without the icons. */
  const SidebarItems: seq<Item> := [
    Dashboard, Management, Vehicles, Finance, ServicesList, Feedback,
    Reports, SystemSettings, Notifications, Maintenance]

  /** `isActive(path)`: a path that is present and non-empty, and that the
      current pathname starts with. */
  predicate IsActive(pathname: string, path: Option<string>)
  {
    Truthy(path) && StartsWith(pathname, path.value)
  }

  /** A path is active exactly when it is non-empty and the pathname is that
      path followed by anything at all: the test is a plain prefix test, not
      a match on whole path segments. */
  lemma IsActiveIffPrefix(pathname: string, path: string)
    ensures IsActive(pathname, Some(path)) <==>
      path != "" && exists rest :: pathname == path + rest
  {
    if path != "" && StartsWith(pathname, path) {
      assert pathname == path + pathname[|path|..];
    }
  }

  /** A group is auto-expanded when one of its children is active. */
  predicate ExpandsFor(item: Item, pathname: string)
  {
    item.children.Some? && exists c :: c in item.children.value && IsActive(pathname, c.path)
  }

  /** The labels the location effect collects, in sidebar order. */
  function ActiveParents(items: seq<Item>, pathname: string): seq<string>
  {
    if items == [] then []
    else
      var last := items[|items| - 1];
      ActiveParents(items[..|items| - 1], pathname) + (if ExpandsFor(last, pathname) then [last.name] else [])
  }

  /** The location effect's `forEach`: pushes the name of every group with
      an active child. */
  method ExpandedParents(items: seq<Item>, pathname: string) returns (parents: seq<string>)
    ensures parents == ActiveParents(items, pathname)
  {
    parents := [];
    var i := 0;
    while i < |items|
      invariant 0 <= i <= |items|
      invariant parents == ActiveParents(items[..i], pathname)
    {
      var item := items[i];
      assert items[..i + 1][..i] == items[..i];
      if item.children.Some? {
        var active := exists c :: c in item.children.value && IsActive(pathname, c.path);
        if active {
          parents := parents + [item.name];
        }
      }
      i := i + 1;
    }
    assert items[..i] == items;
  }

  /** A name is collected exactly when some group with that name has an
      active child; leaves are never collected. */
  lemma {:induction false} ActiveParentsMembers(items: seq<Item>, pathname: string, name: string)
    ensures name in ActiveParents(items, pathname) <==>
      exists i :: 0 <= i < |items| && items[i].name == name && ExpandsFor(items[i], pathname)
  {
    if items != [] {
      var front := items[..|items| - 1];
      ActiveParentsMembers(front, pathname, name);
      assert forall i :: 0 <= i < |front| ==> front[i] == items[i];
    }
  }

  /** The positions of the groups the effect collects: each one is an
      expanding group, and they increase. */
  function ExpandingIndices(items: seq<Item>, pathname: string): (idx: seq<nat>)
    ensures forall k :: 0 <= k < |idx| ==> idx[k] < |items| && ExpandsFor(items[idx[k]], pathname)
    ensures forall k, m :: 0 <= k < m < |idx| ==> idx[k] < idx[m]
  {
    if items == [] then []
    else
      var front := items[..|items| - 1];
      assert forall i :: 0 <= i < |front| ==> front[i] == items[i];
      ExpandingIndices(front, pathname)
      + (if ExpandsFor(items[|items| - 1], pathname) then [|items| - 1] else [])
  }

  /** The collected labels are the labels at the expanding positions. */
  lemma {:induction false} ActiveParentsAtIndices(items: seq<Item>, pathname: string)
    ensures var r := ActiveParents(items, pathname);
      var idx := ExpandingIndices(items, pathname);
      |r| == |idx| && forall k :: 0 <= k < |idx| ==> r[k] == items[idx[k]].name
  {
    if items != [] {
      var front := items[..|items| - 1];
      ActiveParentsAtIndices(front, pathname);
      assert forall i :: 0 <= i < |front| ==> front[i] == items[i];
    }
  }

  /** No expanding group is skipped. */
  lemma {:induction false} ExpandingIndicesComplete(items: seq<Item>, pathname: string)
    ensures forall i :: 0 <= i < |items| && ExpandsFor(items[i], pathname) ==>
      i in ExpandingIndices(items, pathname)
  {
    if items != [] {
      var front := items[..|items| - 1];
      ExpandingIndicesComplete(front, pathname);
      assert forall i :: 0 <= i < |front| ==> front[i] == items[i];
    }
  }

  /** The collected labels are those of the expanding groups taken in
      sidebar order: positions increase, each one holds an expanding group,
      and no expanding group is skipped. */
  lemma ActiveParentsInOrder(items: seq<Item>, pathname: string)
    ensures var r := ActiveParents(items, pathname);
      var idx := ExpandingIndices(items, pathname);
      && |r| == |idx|
      && (forall k :: 0 <= k < |idx| ==> idx[k] < |items| && r[k] == items[idx[k]].name)
      && (forall k :: 0 <= k < |idx| ==> ExpandsFor(items[idx[k]], pathname))
      && (forall k, m :: 0 <= k < m < |idx| ==> idx[k] < idx[m])
      && (forall i :: 0 <= i < |items| && ExpandsFor(items[i], pathname) ==> i in idx)
  {
    ActiveParentsAtIndices(items, pathname);
    ExpandingIndicesComplete(items, pathname);
  }

  /** On the car list and on every car's detail page, only the Vehicles
      group opens. */
  lemma CarPagesExpandVehicles(items: seq<Item>, p: string)
    requires items == SidebarItems
    requires StartsWith(p, "/vehicles/cars")
    ensures ActiveParents(items, p) == ["Vehicles"]
  {
    SidebarShape(items);
    VehiclesOpensOnCarPages(p);
    OtherGroupsClosedOnCarPages(p);
    OnlyVehiclesHasActiveChild(items, p);
    SingleExpandingGroup(items, p, 2);
  }

  /** Where the groups sit in the sidebar; every other entry is a leaf. */
  lemma SidebarShape(items: seq<Item>)
    requires items == SidebarItems
    ensures |items| == 10
    ensures items[1] == Management && items[2] == Vehicles
    ensures items[3] == Finance && items[5] == Feedback
    ensures forall i :: 0 <= i < |items| && i != 1 && i != 2 && i != 3 && i != 5 ==>
      items[i].children.None?
  {
  }

  /** The Cars child is active on every car page. */
  lemma VehiclesOpensOnCarPages(p: string)
    requires StartsWith(p, "/vehicles/cars")
    ensures ExpandsFor(Vehicles, p)
  {
    var cars := Vehicles.children.value[0];
    assert cars in Vehicles.children.value && IsActive(p, cars.path);
  }

  /** No child of Management, Finance or Feedback lies under `/v`. */
  lemma OtherGroupsClosedOnCarPages(p: string)
    requires StartsWith(p, "/vehicles/cars")
    ensures !ExpandsFor(Management, p) && !ExpandsFor(Finance, p) && !ExpandsFor(Feedback, p)
  {
    assert p[1] == "/vehicles/cars"[1];
    OtherSectionClosed(Management, p);
    OtherSectionClosed(Finance, p);
    OtherSectionClosed(Feedback, p);
  }

  /** With the other three groups closed and every other entry a leaf,
      Vehicles is the one group that opens. */
  lemma OnlyVehiclesHasActiveChild(items: seq<Item>, p: string)
    requires |items| == 10
    requires items[1] == Management && items[2] == Vehicles
    requires items[3] == Finance && items[5] == Feedback
    requires forall i :: 0 <= i < |items| && i != 1 && i != 2 && i != 3 && i != 5 ==>
      items[i].children.None?
    requires !ExpandsFor(Management, p) && !ExpandsFor(Finance, p) && !ExpandsFor(Feedback, p)
    ensures forall i :: 0 <= i < |items| && i != 2 ==> !ExpandsFor(items[i], p)
  {
  }

  /** A group none of whose children lies under the pathname's first letter
      stays closed. */
  lemma OtherSectionClosed(item: Item, p: string)
    requires |p| >= 2
    requires item.children.Some?
    requires forall k :: 0 <= k < |item.children.value| ==>
      var path := item.children.value[k].path;
      path.Some? && |path.value| >= 2 && path.value[1] != p[1]
    ensures !ExpandsFor(item, p)
  {
    forall c | c in item.children.value
      ensures !IsActive(p, c.path)
    {
      var k :| 0 <= k < |item.children.value| && item.children.value[k] == c;
    }
  }

  /** The effect's result over a concatenation is the concatenation of the
      results. */
  lemma {:induction false} ActiveParentsAppend(a: seq<Item>, b: seq<Item>, p: string)
    ensures ActiveParents(a + b, p) == ActiveParents(a, p) + ActiveParents(b, p)
  {
    if b != [] {
      assert (a + b)[..|a + b| - 1] == a + b[..|b| - 1];
      ActiveParentsAppend(a, b[..|b| - 1], p);
    } else {
      assert a + b == a;
    }
  }

  /** Without a group that has an active child, nothing is expanded. */
  lemma {:induction false} NoExpandingGroup(items: seq<Item>, p: string)
    requires forall i :: 0 <= i < |items| ==> !ExpandsFor(items[i], p)
    ensures ActiveParents(items, p) == []
  {
    if items != [] {
      NoExpandingGroup(items[..|items| - 1], p);
    }
  }

  /** When exactly one group has an active child, only it is expanded. */
  lemma SingleExpandingGroup(items: seq<Item>, p: string, j: nat)
    requires j < |items| && ExpandsFor(items[j], p)
    requires forall i :: 0 <= i < |items| && i != j ==> !ExpandsFor(items[i], p)
    ensures ActiveParents(items, p) == [items[j].name]
  {
    var before, after := items[..j], items[j + 1..];
    assert items == before + [items[j]] + after;
    NoExpandingGroup(before, p);
    NoExpandingGroup(after, p);
    ActiveParentsAppend(before + [items[j]], after, p);
    ActiveParentsAppend(before, [items[j]], p);
  }

  /** `prev.filter((x) => x !== name)`. */
  function Without(s: seq<string>, x: string): (r: seq<string>)
    ensures forall y :: y in r <==> y in s && y != x
    ensures |r| <= |s|
  {
    if s == [] then []
    else (if s[0] == x then [] else [s[0]]) + Without(s[1..], x)
  }

  /** `toggleExpand`'s update: removes `name` if present, else appends it. */
  function Toggled(prev: seq<string>, name: string): (r: seq<string>)
    ensures name in r <==> name !in prev
    ensures forall other :: other != name ==> (other in r <==> other in prev)
  {
    if name in prev then Without(prev, name) else prev + [name]
  }

  ghost predicate NoDuplicates(s: seq<string>)
  {
    forall i, j :: 0 <= i < j < |s| ==> s[i] != s[j]
  }

  /** Filtering keeps a list free of duplicates. */
  lemma {:induction false} WithoutNoDuplicates(s: seq<string>, x: string)
    requires NoDuplicates(s)
    ensures NoDuplicates(Without(s, x))
  {
    if s != [] {
      WithoutNoDuplicates(s[1..], x);
      var rest := Without(s[1..], x);
      assert s[0] !in s[1..];
      assert s[0] !in rest;
    }
  }

  /** Toggling keeps the expanded list free of duplicates. */
  lemma ToggledNoDuplicates(prev: seq<string>, name: string)
    requires NoDuplicates(prev)
    ensures NoDuplicates(Toggled(prev, name))
  {
    if name in prev {
      WithoutNoDuplicates(prev, name);
    }
  }

  /** No two entries share a label. */
  ghost predicate DistinctNames(items: seq<Item>)
  {
    forall i, j :: 0 <= i < j < |items| ==> items[i].name != items[j].name
  }

  /** The sidebar's labels are distinct. */
  lemma SidebarLabelsDistinct(items: seq<Item>)
    requires items == SidebarItems
    ensures DistinctNames(items)
  {
  }

  /** Over entries with distinct labels, the effect never lists a label
      twice. */
  lemma ActiveParentsNoDuplicates(items: seq<Item>, pathname: string)
    requires DistinctNames(items)
    ensures NoDuplicates(ActiveParents(items, pathname))
  {
    ActiveParentsInOrder(items, pathname);
  }

  /** Toggling the same name twice restores which labels are expanded. */
  lemma ToggleTwice(prev: seq<string>, name: string, l: string)
    ensures l in Toggled(Toggled(prev, name), name) <==> l in prev
  {
  }

  /** The sidebar's state: the location it was last told about, the
      expanded groups, and the calls it has made outward, in order. */
  class SidebarState {
    var pathname: string
    var expanded: seq<string>
    var calls: seq<Call>

    /** The expanded list never names a group twice. */
    ghost predicate Valid()
      reads this
    {
      NoDuplicates(expanded)
    }

    /** Mounting runs the location effect once. */
    constructor (pathname: string)
      ensures Valid()
      ensures this.pathname == pathname
      ensures expanded == ActiveParents(SidebarItems, pathname)
      ensures calls == []
    {
      this.pathname := pathname;
      var parents := ExpandedParents(SidebarItems, pathname);
      expanded := parents;
      calls := [];
      SidebarLabelsDistinct(SidebarItems);
      ActiveParentsNoDuplicates(SidebarItems, pathname);
    }

    /** The router reports the pathname `p`. The location effect depends on
        the pathname alone: a new pathname replaces the expanded list
        wholesale, and the same pathname (a navigation to the current page,
        or a change of the query string only) runs nothing, so the user's
        toggles survive. */
    method LocationChanged(p: string)
      requires Valid()
      modifies this
      ensures Valid()
      ensures pathname == p
      ensures p != old(pathname) ==> expanded == ActiveParents(SidebarItems, p)
      ensures p == old(pathname) ==> expanded == old(expanded)
      ensures calls == old(calls)
    {
      if p != pathname {
        pathname := p;
        var parents := ExpandedParents(SidebarItems, p);
        expanded := parents;
        SidebarLabelsDistinct(SidebarItems);
        ActiveParentsNoDuplicates(SidebarItems, p);
      }
    }

    method ToggleExpand(name: string)
      requires Valid()
      modifies this
      ensures Valid()
      ensures expanded == Toggled(old(expanded), name)
      ensures pathname == old(pathname) && calls == old(calls)
    {
      ToggledNoDuplicates(expanded, name);
      expanded := Toggled(expanded, name);
    }

    /** `handleParentClick`: a group only toggles; a leaf with a path
        navigates there and closes the sidebar; anything else does nothing. */
    method ParentClick(item: Item)
      requires Valid()
      modifies this
      ensures Valid()
      ensures pathname == old(pathname)
      ensures item.children.Some? ==>
        expanded == Toggled(old(expanded), item.name) && calls == old(calls)
      ensures item.children.None? && Truthy(item.path) ==>
        expanded == old(expanded) && calls == old(calls) + [Navigate(item.path.value), Close]
      ensures item.children.None? && !Truthy(item.path) ==>
        expanded == old(expanded) && calls == old(calls)
    {
      if item.children.Some? {
        ToggleExpand(item.name);
      } else if Truthy(item.path) {
        calls := calls + [Navigate(item.path.value), Close];
      }
    }

    /** A child's button: `child.path && handleChildClick(child.path)`. */
    method ChildClick(child: Child)
      modifies this
      ensures Valid() == old(Valid())
      ensures pathname == old(pathname) && expanded == old(expanded)
      ensures Truthy(child.path) ==> calls == old(calls) + [Navigate(child.path.value), Close]
      ensures !Truthy(child.path) ==> calls == old(calls)
    {
      if Truthy(child.path) {
        calls := calls + [Navigate(child.path.value), Close];
      }
    }
  }
}
