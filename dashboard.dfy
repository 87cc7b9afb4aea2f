// src/pages/Dashboard.tsx: which counter tiles the dashboard builds for the
// signed-in user, what each one counts, where each one links, which tiles
// are displayed, and the page's early returns.

module Dashboard {
  import opened Seqs
  import opened Domain
  import opened RoleUtils
  import opened DateUtils
  import RequestList

  /** A link's target, with its query string written decoded. */
  datatype Link = Link(path: string, params: map<string, string>)

  /** The nine tiles the dashboard can build; Title gives each one's name. */
  datatype TileName =
    | TotalUsers | YourPending | NewRequests | Oversee
    | AssignedToYou | Overdue | DueSoon | AvailableAssets | InUseAssets

  function Title(n: TileName): string
  {
    match n
    case TotalUsers => "Total Users"
    case YourPending => "Your Pending Requests"
    case NewRequests => "New Requests (last 7 days)"
    case Oversee => "Requests You Oversee"
    case AssignedToYou => "Assigned To You"
    case Overdue => "Overdue Assignments"
    case DueSoon => "Assignments Due Soon (7 days)"
    case AvailableAssets => "Available Assets"
    case InUseAssets => "In Use Assets"
  }

  /** One dashboard entry: its name, its count and its link. */
  datatype Tile = Tile(name: TileName, value: nat, link: Link)

  /** The lists the five fetches return: getUsers, getMyRequests,
      getRequests, myAssignments and getAssets (read once for both asset
      tiles). */
  datatype Fetched = Fetched(
    users: seq<User>,
    myRequests: seq<Request>,
    requests: seq<Request>,
    assignments: seq<Assignment>,
    assets: seq<Asset>)

  /** Where the tiles link. The three assignment tiles all open the user's
      own assignments. */
  const UsersLink: Link := Link("/users", map[])
  const MyPendingLink: Link := Link("/requests", map["status" := "Pending", "request_type" := "My Requests"])
  const MyRequestsLink: Link := Link("/requests", map["status" := "", "request_type" := "My Requests"])
  const OverseeLinkAsWritten: Link :=
    Link("/requests", map["status" := "Pending", "request_type" := "Requests I Oversee"])
  const OverseeLink: Link := Link("/requests", map["status" := "Pending", "request_type" := RequestList.DefaultType])
  const MyAssignmentsLink: Link := Link("/assignments", map["status" := "", "relationship" := "Requester"])
  const AvailableLink: Link := Link("/assets", map["search" := "", "status" := "Available"])
  const InUseLink: Link := Link("/assets", map["search" := "", "status" := "In Use"])

  predicate IsPending(x: Request)
  {
    x.status == Pending
  }

  /** Requested strictly after the given instant. */
  function RequestedAfter(since: int): Request -> bool
  {
    (x: Request) => x.requestedAt > since
  }

  /** Pending, and someone else's: what the user has to decide on. */
  function OverseenPending(me: int): Request -> bool
  {
    (x: Request) => x.status == Pending && x.userId != me
  }

  function AssignedTo(me: int): Assignment -> bool
  {
    (x: Assignment) => x.userId == me
  }

  /** The user's, and due strictly before now. */
  function OverdueFor(me: int, now: int): Assignment -> bool
  {
    (x: Assignment) => x.dueDate < now && x.userId == me
  }

  /** The user's, and due strictly between now and seven days from now. */
  function DueSoonFor(me: int, now: int): Assignment -> bool
  {
    (x: Assignment) => x.dueDate < AddDays(now, 7) && x.dueDate > now && x.userId == me
  }

  function HasStatus(status: AssetStatus): Asset -> bool
  {
    (x: Asset) => x.status == status
  }

  /** 'Total Users': every user the backend lists. */
  function TotalUsersTile(users: seq<User>): (t: Tile)
    ensures t.name == TotalUsers && t.value == |users| && t.link == UsersLink
  {
    Tile(TotalUsers, |users|, UsersLink)
  }

  /** The two tiles over the user's own requests: the pending ones, and the
      ones requested in the last seven days. */
  function MyRequestTiles(mine: seq<Request>, now: int): (ts: seq<Tile>)
    ensures |ts| == 2 && ts[0].name == YourPending && ts[1].name == NewRequests
    ensures ts[0].value == |Filter(mine, IsPending)|
    ensures ts[1].value == |Filter(mine, RequestedAfter(AddDays(now, -7)))|
    ensures ts[0].link == MyPendingLink && ts[1].link == MyRequestsLink
  {
    CountIsFilterLength(mine, IsPending);
    CountIsFilterLength(mine, RequestedAfter(AddDays(now, -7)));
    [Tile(YourPending, Count(mine, IsPending), MyPendingLink),
     Tile(NewRequests, Count(mine, RequestedAfter(AddDays(now, -7))), MyRequestsLink)]
  }

  /** The oversee tile's count: the pending requests of other users. */
  function OverseeCount(requests: seq<Request>, me: int): (n: nat)
    ensures n == |Filter(requests, OverseenPending(me))|
    ensures n <= |Filter(requests, IsPending)|
  {
    CountIsFilterLength(requests, OverseenPending(me));
    CountIsFilterLength(requests, IsPending);
    CountImplies(requests, OverseenPending(me), IsPending);
    Count(requests, OverseenPending(me))
  }

  /** The oversee tile as written: its link asks for request_type
      'Requests I Oversee', which the request list does not offer. */
  function OverseeTileAsWritten(requests: seq<Request>, me: int): (t: Tile)
    ensures t.name == Oversee && t.value == OverseeCount(requests, me)
    ensures t.link == OverseeLinkAsWritten
  {
    Tile(Oversee, OverseeCount(requests, me), OverseeLinkAsWritten)
  }

  /** The oversee tile linking to the list's own name for other users'
      requests, 'Pending Requests'. */
  function OverseeTile(requests: seq<Request>, me: int): (t: Tile)
    ensures t.name == Oversee && t.value == OverseeCount(requests, me)
    ensures t.link == OverseeLink
  {
    Tile(Oversee, OverseeCount(requests, me), OverseeLink)
  }

  /** The three assignment tiles: the user's assignments, the overdue ones
      and the ones due within seven days. */
  function AssignmentTiles(assignments: seq<Assignment>, me: int, now: int): (ts: seq<Tile>)
    ensures |ts| == 3 && ts[0].name == AssignedToYou && ts[1].name == Overdue && ts[2].name == DueSoon
    ensures ts[0].value == |Filter(assignments, AssignedTo(me))|
    ensures ts[1].value == |Filter(assignments, OverdueFor(me, now))|
    ensures ts[2].value == |Filter(assignments, DueSoonFor(me, now))|
    ensures ts[0].link == MyAssignmentsLink && ts[1].link == MyAssignmentsLink && ts[2].link == MyAssignmentsLink
  {
    CountIsFilterLength(assignments, AssignedTo(me));
    CountIsFilterLength(assignments, OverdueFor(me, now));
    CountIsFilterLength(assignments, DueSoonFor(me, now));
    var mine := Tile(AssignedToYou, Count(assignments, AssignedTo(me)), MyAssignmentsLink);
    var overdue := Tile(Overdue, Count(assignments, OverdueFor(me, now)), MyAssignmentsLink);
    var soon := Tile(DueSoon, Count(assignments, DueSoonFor(me, now)), MyAssignmentsLink);
    [mine, overdue, soon]
  }

  /** 'Available Assets' and 'In Use Assets': the assets with that status. */
  function AssetTile(assets: seq<Asset>, status: AssetStatus): (t: Tile)
    requires status == Available || status == InUse
    ensures status == Available ==> t.name == AvailableAssets
    ensures status == InUse ==> t.name == InUseAssets
    ensures t.value == |Filter(assets, HasStatus(status))|
    ensures status == Available ==> t.link == AvailableLink
    ensures status == InUse ==> t.link == InUseLink
  {
    CountIsFilterLength(assets, HasStatus(status));
    if status == Available then Tile(AvailableAssets, Count(assets, HasStatus(status)), AvailableLink)
    else Tile(InUseAssets, Count(assets, HasStatus(status)), InUseLink)
  }

  /** A count is at most the count of any weaker condition. */
  lemma {:induction false} CountImplies<T>(s: seq<T>, p: T -> bool, q: T -> bool)
    requires forall x :: p(x) ==> q(x)
    ensures Count(s, p) <= Count(s, q)
    decreases |s|
  {
    if s != [] {
      CountImplies(s[1..], p, q);
    }
  }

  /** Two exclusive conditions that each imply a third count no more than it. */
  lemma {:induction false} CountDisjointBound<T>(s: seq<T>, p: T -> bool, q: T -> bool, r: T -> bool)
    requires forall x :: p(x) ==> r(x)
    requires forall x :: q(x) ==> r(x)
    requires forall x :: !(p(x) && q(x))
    ensures Count(s, p) + Count(s, q) <= Count(s, r)
    decreases |s|
  {
    if s != [] {
      CountDisjointBound(s[1..], p, q, r);
    }
  }

  /** Overdue and Due Soon never count the same assignment, and together
      count no more than Assigned To You. */
  lemma OverdueAndDueSoonDisjoint(assignments: seq<Assignment>, me: int, now: int)
    ensures forall x :: !(OverdueFor(me, now)(x) && DueSoonFor(me, now)(x))
    ensures var ts := AssignmentTiles(assignments, me, now);
      ts[1].value + ts[2].value <= ts[0].value
  {
    CountIsFilterLength(assignments, AssignedTo(me));
    CountIsFilterLength(assignments, OverdueFor(me, now));
    CountIsFilterLength(assignments, DueSoonFor(me, now));
    CountDisjointBound(assignments, OverdueFor(me, now), DueSoonFor(me, now), AssignedTo(me));
  }

  /** Which of the three role checks in getDashboards the user passes. */
  datatype Roles = Roles(readUser: bool, requester: bool, overseer: bool)

  function RolesOf(u: User): (r: Roles)
    ensures r.readUser <==> Holds(u, ReadUser)
    ensures r.requester <==> Holds(u, RequestAsset)
    ensures r.overseer <==> Holds(u, CheckInOutAsset)
  {
    Roles(HasRole(u, ReadUser), HasRole(u, RequestAsset), HasRole(u, CheckInOutAsset))
  }

  /** The tiles pushed before the assignment tiles, in push order. */
  function RoleTiles(r: Roles, d: Fetched, me: int, now: int): (ts: seq<Tile>)
  {
    (if r.readUser then [TotalUsersTile(d.users)] else [])
    + (if r.requester then MyRequestTiles(d.myRequests, now) else [])
    + (if r.overseer then [OverseeTileAsWritten(d.requests, me)] else [])
  }

  /** The tiles pushed after the assignment tiles. */
  function StockTiles(r: Roles, assets: seq<Asset>): (ts: seq<Tile>)
  {
    (if r.requester then [AssetTile(assets, Available)] else [])
    + (if r.overseer then [AssetTile(assets, InUse)] else [])
  }

  /** getDashboards' result: every pushed entry, flattened one level, in push
      order. */
  function DashboardTiles(u: User, d: Fetched, now: int): seq<Tile>
  {
    var r := RolesOf(u);
    RoleTiles(r, d, u.id, now) + AssignmentTiles(d.assignments, u.id, now) + StockTiles(r, d.assets)
  }

  function Names(ts: seq<Tile>): (ns: seq<TileName>)
    ensures |ns| == |ts|
  {
    if ts == [] then [] else [ts[0].name] + Names(ts[1..])
  }

  /** Names are taken tile by tile, so they distribute over concatenation. */
  lemma {:induction false} NamesConcat(a: seq<Tile>, b: seq<Tile>)
    ensures Names(a + b) == Names(a) + Names(b)
    decreases |a|
  {
    if a != [] {
      assert (a + b)[0] == a[0];
      assert (a + b)[1..] == a[1..] + b;
      NamesConcat(a[1..], b);
      calc {
        Names(a + b);
        [a[0].name] + Names(a[1..] + b);
        [a[0].name] + (Names(a[1..]) + Names(b));
        ([a[0].name] + Names(a[1..])) + Names(b);
        Names(a) + Names(b);
      }
    } else {
      assert a + b == b;
    }
  }

  lemma {:induction false} NamesPointwise(ts: seq<Tile>)
    ensures forall i :: 0 <= i < |ts| ==> Names(ts)[i] == ts[i].name
    decreases |ts|
  {
    if ts != [] {
      NamesPointwise(ts[1..]);
    }
  }

  /** The tile names for a user with or without ReadUser, RequestAsset and
      CheckInOutAsset. */
  function NameLayout(readUser: bool, requester: bool, overseer: bool): seq<TileName>
  {
    (if readUser then [TotalUsers] else [])
    + (if requester then [YourPending, NewRequests] else [])
    + (if overseer then [Oversee] else [])
    + [AssignedToYou, Overdue, DueSoon]
    + (if requester then [AvailableAssets] else [])
    + (if overseer then [InUseAssets] else [])
  }

  lemma OptionalNames(c: bool, ts: seq<Tile>, ns: seq<TileName>)
    requires Names(ts) == ns
    ensures Names(if c then ts else []) == if c then ns else []
  {
  }

  lemma RoleTileNames(r: Roles, d: Fetched, me: int, now: int)
    ensures Names(RoleTiles(r, d, me, now))
         == (if r.readUser then [TotalUsers] else [])
          + (if r.requester then [YourPending, NewRequests] else [])
          + (if r.overseer then [Oversee] else [])
  {
    var a := if r.readUser then [TotalUsersTile(d.users)] else [];
    var b := if r.requester then MyRequestTiles(d.myRequests, now) else [];
    var c := if r.overseer then [OverseeTileAsWritten(d.requests, me)] else [];
    NamesPointwise(MyRequestTiles(d.myRequests, now));
    OptionalNames(r.readUser, [TotalUsersTile(d.users)], [TotalUsers]);
    OptionalNames(r.requester, MyRequestTiles(d.myRequests, now), [YourPending, NewRequests]);
    OptionalNames(r.overseer, [OverseeTileAsWritten(d.requests, me)], [Oversee]);
    assert RoleTiles(r, d, me, now) == a + b + c;
    NamesConcat(a, b);
    NamesConcat(a + b, c);
  }

  lemma StockTileNames(r: Roles, assets: seq<Asset>)
    ensures Names(StockTiles(r, assets))
         == (if r.requester then [AvailableAssets] else [])
          + (if r.overseer then [InUseAssets] else [])
  {
    var e := if r.requester then [AssetTile(assets, Available)] else [];
    var f := if r.overseer then [AssetTile(assets, InUse)] else [];
    NamesConcat(e, f);
  }

  lemma AssignmentTileNames(assignments: seq<Assignment>, me: int, now: int)
    ensures Names(AssignmentTiles(assignments, me, now)) == [AssignedToYou, Overdue, DueSoon]
  {
    NamesPointwise(AssignmentTiles(assignments, me, now));
  }

  lemma DashboardNames(u: User, d: Fetched, now: int)
    ensures Names(DashboardTiles(u, d, now))
         == NameLayout(Holds(u, ReadUser), Holds(u, RequestAsset), Holds(u, CheckInOutAsset))
  {
    var r := RolesOf(u);
    var a := RoleTiles(r, d, u.id, now);
    var m := AssignmentTiles(d.assignments, u.id, now);
    var k := StockTiles(r, d.assets);
    RoleTileNames(r, d, u.id, now);
    StockTileNames(r, d.assets);
    AssignmentTileNames(d.assignments, u.id, now);
    NamesOfParts(r, a, m, k);
  }

  /** The names of the three parts, put together, follow NameLayout. */
  lemma NamesOfParts(r: Roles, a: seq<Tile>, m: seq<Tile>, k: seq<Tile>)
    requires Names(a) == (if r.readUser then [TotalUsers] else [])
                       + (if r.requester then [YourPending, NewRequests] else [])
                       + (if r.overseer then [Oversee] else [])
    requires Names(m) == [AssignedToYou, Overdue, DueSoon]
    requires Names(k) == (if r.requester then [AvailableAssets] else []) + (if r.overseer then [InUseAssets] else [])
    ensures Names(a + m + k) == NameLayout(r.readUser, r.requester, r.overseer)
  {
    NamesConcat(a, m);
    NamesConcat(a + m, k);
    var e: seq<TileName> := if r.requester then [AvailableAssets] else [];
    var f: seq<TileName> := if r.overseer then [InUseAssets] else [];
    ConcatAssoc3(Names(a) + Names(m), e, f);
  }

  lemma ConcatAssoc3<T>(x: seq<T>, y: seq<T>, z: seq<T>)
    ensures x + (y + z) == x + y + z
  {
  }

  /** Whether a tile of the given name belongs on the dashboard of a user
      with these roles: the three assignment tiles always do. */
  predicate Offered(n: TileName, readUser: bool, requester: bool, overseer: bool)
  {
    match n
    case TotalUsers => readUser
    case YourPending | NewRequests | AvailableAssets => requester
    case Oversee | InUseAssets => overseer
    case AssignedToYou | Overdue | DueSoon => true
  }

  /** Each tile is there exactly when its role is, and there are three to
      nine of them. */
  predicate NamesFollowRoles(ns: seq<TileName>, readUser: bool, requester: bool, overseer: bool)
  {
    && 3 <= |ns| <= 9
    && forall n: TileName :: n in ns <==> Offered(n, readUser, requester, overseer)
  }

  lemma NameLayoutShape(readUser: bool, requester: bool, overseer: bool)
    ensures NamesFollowRoles(NameLayout(readUser, requester, overseer), readUser, requester, overseer)
  {
    var a := if readUser then [TotalUsers] else [];
    var b := if requester then [YourPending, NewRequests] else [];
    var c := if overseer then [Oversee] else [];
    var m := [AssignedToYou, Overdue, DueSoon];
    var e := if requester then [AvailableAssets] else [];
    var f := if overseer then [InUseAssets] else [];
    var ns := NameLayout(readUser, requester, overseer);
    assert ns == a + b + c + m + e + f;
    forall n: TileName
      ensures n in ns <==> Offered(n, readUser, requester, overseer)
    {
      assert n in ns <==> n in a || n in b || n in c || n in m || n in e || n in f;
      match n
      case TotalUsers =>
      case YourPending | NewRequests =>
      case Oversee =>
      case AssignedToYou | Overdue | DueSoon =>
      case AvailableAssets =>
      case InUseAssets =>
    }
  }

  lemma ConcatAssoc<T>(w: seq<T>, x: seq<T>, y: seq<T>, z: seq<T>)
    ensures w + x + y + z == w + (x + y + z)
  {
  }

  /** The role-dependent pushes before the assignment tiles. */
  method PushRoleTiles(r: Roles, d: Fetched, me: int, now: int, results: seq<Tile>) returns (tiles: seq<Tile>)
    ensures tiles == results + RoleTiles(r, d, me, now)
  {
    ghost var a := if r.readUser then [TotalUsersTile(d.users)] else [];
    ghost var b := if r.requester then MyRequestTiles(d.myRequests, now) else [];
    ghost var c := if r.overseer then [OverseeTileAsWritten(d.requests, me)] else [];
    tiles := results;
    if r.readUser {
      tiles := tiles + [TotalUsersTile(d.users)];
    }
    assert tiles == results + a;
    if r.requester {
      tiles := tiles + MyRequestTiles(d.myRequests, now);
    }
    assert tiles == results + a + b;
    if r.overseer {
      tiles := tiles + [OverseeTileAsWritten(d.requests, me)];
    }
    assert tiles == results + a + b + c;
    ConcatAssoc(results, a, b, c);
  }

  /** The role-dependent pushes after the assignment tiles. */
  method PushStockTiles(r: Roles, assets: seq<Asset>, results: seq<Tile>) returns (tiles: seq<Tile>)
    ensures tiles == results + StockTiles(r, assets)
  {
    tiles := results;
    if r.requester {
      tiles := tiles + [AssetTile(assets, Available)];
    }
    ghost var a := tiles;
    if r.overseer {
      tiles := tiles + [AssetTile(assets, InUse)];
    }
    assert a == results + (if r.requester then [AssetTile(assets, Available)] else []);
  }

  /** getDashboards: each fetch pushes its tile, or its array of tiles, in
      turn, and the awaited results are flattened one level; appending each
      entry as it is pushed gives the same list. */
  method GetDashboards(u: User, d: Fetched, now: int) returns (tiles: seq<Tile>)
    ensures tiles == DashboardTiles(u, d, now)
  {
    var r := RolesOf(u);
    ghost var a := RoleTiles(r, d, u.id, now);
    ghost var m := AssignmentTiles(d.assignments, u.id, now);
    tiles := PushRoleTiles(r, d, u.id, now, []);
    assert tiles == a;
    tiles := tiles + AssignmentTiles(d.assignments, u.id, now);
    assert tiles == a + m;
    tiles := PushStockTiles(r, d.assets, tiles);
  }

  /** For a user holding CheckInOutAsset, getDashboards' list carries the
      oversee tile with the link as written. */
  lemma DashboardLinksOverseeAsWritten(u: User, d: Fetched, now: int)
    requires Holds(u, CheckInOutAsset)
    ensures OverseeTileAsWritten(d.requests, u.id) in DashboardTiles(u, d, now)
  {
    var r := RolesOf(u);
    var a := RoleTiles(r, d, u.id, now);
    assert a[|a| - 1] == OverseeTileAsWritten(d.requests, u.id);
    assert DashboardTiles(u, d, now)[|a| - 1] == a[|a| - 1];
  }

  /** `dashboards.filter((dashboard) => dashboard.value != 0)`: the tiles
      displayed, in order. */
  function ShownTiles(tiles: seq<Tile>): (r: seq<Tile>)
    ensures |r| <= |tiles|
    ensures forall t :: t in r <==> t in tiles && t.value != 0
  {
    Filter(tiles, (t: Tile) => t.value != 0)
  }

  /** The assignment tiles are always built, so each one is displayed exactly
      when its count is not zero. */
  lemma AssignmentTileShownIff(u: User, d: Fetched, now: int, k: nat)
    requires k < 3
    ensures var t := AssignmentTiles(d.assignments, u.id, now)[k];
      t in ShownTiles(DashboardTiles(u, d, now)) <==> t.value != 0
  {
    var m := AssignmentTiles(d.assignments, u.id, now);
    var tiles := DashboardTiles(u, d, now);
    var i := |RoleTiles(RolesOf(u), d, u.id, now)| + k;
    assert tiles[i] == m[k];
  }

  /** The page's early returns and its grid. */
  datatype Screen = Blank | ErrorAlert | Grid(tiles: seq<Tile>)

  /** The page as written: `loading || !dashboards` is checked before
      `error`. */
  function DashboardScreenAsWritten(loading: bool, dashboards: Option<seq<Tile>>, error: bool): (s: Screen)
    ensures s == ErrorAlert <==> !loading && dashboards.Some? && error
    ensures s.Grid? <==> !loading && dashboards.Some? && !error
    ensures s.Grid? ==> s.tiles == ShownTiles(dashboards.value)
  {
    if loading || dashboards.None? then Blank
    else if error then ErrorAlert
    else Grid(ShownTiles(dashboards.value))
  }

  /** The discrepancy: a failed load leaves the value undefined (useAsync is
      given no default), so the page stays blank and the error alert is never
      shown for it. */
  lemma FailedLoadBlankAsWritten()
    ensures DashboardScreenAsWritten(false, None, true) == Blank
    ensures DashboardScreenAsWritten(false, None, true) != ErrorAlert
  {
  }

  /** The page with the error checked first. */
  function DashboardScreen(loading: bool, dashboards: Option<seq<Tile>>, error: bool): (s: Screen)
    ensures s == ErrorAlert <==> !loading && error
    ensures s.Grid? <==> !loading && dashboards.Some? && !error
    ensures s.Grid? ==> s.tiles == ShownTiles(dashboards.value)
  {
    if loading then Blank
    else if error then ErrorAlert
    else if dashboards.None? then Blank
    else Grid(ShownTiles(dashboards.value))
  }

  /** With it a failed load shows the alert, and a load without error looks
      exactly as before. */
  lemma FailedLoadShowsAlert(loading: bool, dashboards: Option<seq<Tile>>, error: bool)
    ensures DashboardScreen(false, dashboards, true) == ErrorAlert
    ensures !error ==> DashboardScreen(loading, dashboards, error) == DashboardScreenAsWritten(loading, dashboards, error)
  {
  }

  /** The discrepancy in the oversee link: the list reads 'Requests I
      Oversee' as no type filter, so it also lists the user's own pending
      requests. With one own and one other pending request, the tile says 1
      and the list it opens has 2 rows. */
  lemma OverseeLinkListsOwnAsWritten()
    ensures var me := 1;
      var own := Request(1, me, 10, Pending, 0, None, []);
      var other := Request(2, 2, 11, Pending, 0, None, []);
      var t := OverseeTileAsWritten([other], me);
      && t.value == 1
      && |RequestList.FilteredRequests(RequestList.AllRequests([own], [other], true),
                                       RequestList.InitialFiltersAsWritten(t.link.params), me, true)| == 2
  {
    var me := 1;
    var own := Request(1, me, 10, Pending, 0, None, []);
    var other := Request(2, 2, 11, Pending, 0, None, []);
    assert Filter([other], OverseenPending(me)) == [other];
    var f := RequestList.InitialFiltersAsWritten(OverseeLinkAsWritten.params);
    AsWrittenLinkFilters();
    var pass := (x: Request) => RequestList.Passes(x, f, me, true);
    RequestList.FilteredIsOneFilter([own, other], f, me, true);
    FilterKeepsAll([own, other], pass);
  }

  /** The list reads the as-written oversee link as Pending, with no type
      filter. */
  lemma AsWrittenLinkFilters()
    ensures RequestList.InitialFiltersAsWritten(OverseeLinkAsWritten.params) == RequestList.RequestFilters("Pending", "")
  {
    assert "Requests I Oversee" !in RequestList.TypeChoices;
  }

  /** With the corrected link, the list the tile opens holds exactly the
      requests the tile counts, as long as the user's own requests are their
      own. */
  lemma OverseeLinkListsCounted(mine: seq<Request>, overseen: seq<Request>, me: int)
    requires forall i :: 0 <= i < |mine| ==> mine[i].userId == me
    ensures var t := OverseeTile(overseen, me);
      var listed := RequestList.FilteredRequests(RequestList.AllRequests(mine, overseen, true),
                                                 RequestList.InitialFilters(t.link.params), me, true);
      listed == Filter(overseen, OverseenPending(me)) && |listed| == t.value
  {
    var t := OverseeTile(overseen, me);
    var f := RequestList.InitialFilters(t.link.params);
    assert f == RequestList.RequestFilters("Pending", RequestList.DefaultType);
    var pass := (x: Request) => RequestList.Passes(x, f, me, true);
    RequestList.FilteredIsOneFilter(mine + overseen, f, me, true);
    FilterConcat(mine, overseen, pass);
    FilterKeepsNone(mine, pass);
    assert forall x: Request :: pass(x) == OverseenPending(me)(x) by {
      forall x: Request
        ensures pass(x) == OverseenPending(me)(x)
      {
        match x.status
        case Approved =>
        case Rejected =>
        case Pending =>
        case Fulfilled =>
      }
    }
    FilterSame(overseen, pass, OverseenPending(me));
  }
}
