// src/components/Layout.tsx: the navigation menu, which depends on the
// user's roles, and the drawer's open flag.

module Layout {
  import opened Domain
  import opened RoleUtils

  /** The menu entries; Title and Path give the label and route of each. */
  datatype NavItem = DashboardItem | AssetsItem | UsersItem | RequestsItem | AssignmentsItem

  function Title(item: NavItem): string
  {
    match item
    case DashboardItem => "Dashboard"
    case AssetsItem => "Assets"
    case UsersItem => "Users"
    case RequestsItem => "Requests"
    case AssignmentsItem => "Assignments"
  }

  function Path(item: NavItem): string
  {
    match item
    case DashboardItem => "/"
    case AssetsItem => "/assets"
    case UsersItem => "/users"
    case RequestsItem => "/requests"
    case AssignmentsItem => "/assignments"
  }

  /** Position of an item in the full menu. */
  function MenuRank(item: NavItem): nat
  {
    match item
    case DashboardItem => 0
    case AssetsItem => 1
    case UsersItem => 2
    case RequestsItem => 3
    case AssignmentsItem => 4
  }

  /** Entries appear in the menu's fixed order, each at most once. */
  predicate InMenuOrder(items: seq<NavItem>)
  {
    forall i, j :: 0 <= i < j < |items| ==> MenuRank(items[i]) < MenuRank(items[j])
  }

  /** The menu as a value: the optional entries kept between the fixed ones. */
  function Menu(assets: bool, users: bool, requests: bool): seq<NavItem>
  {
    [DashboardItem]
    + (if assets then [AssetsItem] else [])
    + (if users then [UsersItem] else [])
    + (if requests then [RequestsItem] else [])
    + [AssignmentsItem]
  }

  /** Two to five entries, Dashboard first, Assignments last, each optional
      entry present exactly when its flag is set, in the menu's order. */
  lemma MenuShape(assets: bool, users: bool, requests: bool)
    ensures var m := Menu(assets, users, requests);
      && 2 <= |m| <= 5
      && m[0] == DashboardItem && m[|m| - 1] == AssignmentsItem
      && (AssetsItem in m <==> assets)
      && (UsersItem in m <==> users)
      && (RequestsItem in m <==> requests)
      && InMenuOrder(m)
  {
    var m := Menu(assets, users, requests);
    var d, a, u, r, g := DashboardItem, AssetsItem, UsersItem, RequestsItem, AssignmentsItem;
    if assets && users && requests { assert m == [d, a, u, r, g]; }
    else if assets && users { assert m == [d, a, u, g]; }
    else if assets && requests { assert m == [d, a, r, g]; }
    else if users && requests { assert m == [d, u, r, g]; }
    else if assets { assert m == [d, a, g]; }
    else if users { assert m == [d, u, g]; }
    else if requests { assert m == [d, r, g]; }
    else { assert m == [d, g]; }
  }

  /** generateNavItems: Dashboard first and Assignments last, with Assets,
      Users and Requests in between exactly when the user's roles allow them,
      always in the menu's fixed order. */
  method GenerateNavItems(u: User) returns (items: seq<NavItem>)
    ensures items == Menu(Holds(u, ReadAsset), Holds(u, ReadUser),
                          Holds(u, CheckInOutAsset) || Holds(u, RequestAsset))
    ensures 2 <= |items| <= 5
    ensures items[0] == DashboardItem && items[|items| - 1] == AssignmentsItem
    ensures AssetsItem in items <==> Holds(u, ReadAsset)
    ensures UsersItem in items <==> Holds(u, ReadUser)
    ensures RequestsItem in items <==> Holds(u, CheckInOutAsset) || Holds(u, RequestAsset)
    ensures InMenuOrder(items)
  {
    var showAssets := HasRole(u, ReadAsset);
    var showUsers := HasRole(u, ReadUser);
    var showRequests := HasRole(u, CheckInOutAsset) || HasRole(u, RequestAsset);
    ghost var a := if showAssets then [AssetsItem] else [];
    ghost var us := if showUsers then [UsersItem] else [];
    ghost var r := if showRequests then [RequestsItem] else [];
    items := [DashboardItem];
    if showAssets {
      items := items + [AssetsItem];
    }
    assert items == [DashboardItem] + a;
    if showUsers {
      items := items + [UsersItem];
    }
    assert items == [DashboardItem] + a + us;
    if showRequests {
      items := items + [RequestsItem];
    }
    assert items == [DashboardItem] + a + us + r;
    items := items + [AssignmentsItem];
    MenuShape(showAssets, showUsers, showRequests);
  }

  /** The open flag of the navigation drawer. */
  class Drawer {
    var open: bool

    constructor ()
      ensures !open
    {
      open := false;
    }

    /** toggleDrawer. */
    method Toggle()
      modifies this
      ensures open == !old(open)
    {
      open := !open;
    }
  }
}
