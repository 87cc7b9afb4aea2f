// src/pages/Requests/RequestList.tsx: the status and request-type filters
// read from the URL, the list the page filters, and the page slice.

module RequestList {
  import opened Seqs
  import opened Domain
  import opened RoleUtils
  import AssetList

  const StatusChoices: seq<string> := ["Pending", "Approved", "Rejected"]
  const TypeChoices: seq<string> := ["My Requests", "Pending Requests"]
  const DefaultType: string := "Pending Requests"

  /** The Select's initial status: the URL's value if it is a choice, else ''. */
  function InitialStatusFilter(params: map<string, string>): (f: string)
    ensures f == "" || f in StatusChoices
    ensures AssetList.Param(params, "status") in StatusChoices ==> f == params["status"]
    ensures AssetList.Param(params, "status") !in StatusChoices ==> f == ""
  {
    var status := AssetList.Param(params, "status");
    if status in StatusChoices then status else ""
  }

  /** `searchParams.get('request_type') || 'Pending Requests'`: a missing and
      an empty parameter both read as 'Pending Requests'. */
  function RequestTypeAsWritten(params: map<string, string>): (t: string)
    ensures AssetList.Param(params, "request_type") != "" ==> t == params["request_type"]
    ensures AssetList.Param(params, "request_type") == "" ==> t == DefaultType
  {
    var raw := AssetList.Param(params, "request_type");
    if raw != "" then raw else DefaultType
  }

  /** `searchParams.get('request_type') ?? 'Pending Requests'`: only a missing
      parameter reads as 'Pending Requests'. */
  function RequestType(params: map<string, string>): (t: string)
    ensures "request_type" in params ==> t == params["request_type"]
    ensures "request_type" !in params ==> t == DefaultType
  {
    if "request_type" in params then params["request_type"] else DefaultType
  }

  /** The Select's initial type, from a raw type: kept if it is a choice. */
  function TypeFilterOf(raw: string): (f: string)
    ensures f == "" || f in TypeChoices
    ensures raw in TypeChoices ==> f == raw
    ensures raw !in TypeChoices ==> f == ""
  {
    if raw in TypeChoices then raw else ""
  }

  /** Both filters as the page holds them. */
  datatype RequestFilters = RequestFilters(statusFilter: string, typeFilter: string)

  predicate ValidFilters(f: RequestFilters)
  {
    (f.statusFilter == "" || f.statusFilter in StatusChoices)
    && (f.typeFilter == "" || f.typeFilter in TypeChoices)
  }

  /** The filters a (re)loaded page starts with, as written. */
  function InitialFiltersAsWritten(params: map<string, string>): (f: RequestFilters)
    ensures ValidFilters(f)
    ensures f.statusFilter == InitialStatusFilter(params)
    ensures f.typeFilter == TypeFilterOf(RequestTypeAsWritten(params))
  {
    RequestFilters(InitialStatusFilter(params), TypeFilterOf(RequestTypeAsWritten(params)))
  }

  /** The filters a (re)loaded page starts with, with only a missing type
      defaulting. */
  function InitialFilters(params: map<string, string>): (f: RequestFilters)
    ensures ValidFilters(f)
    ensures f.statusFilter == InitialStatusFilter(params)
    ensures f.typeFilter == TypeFilterOf(RequestType(params))
  {
    RequestFilters(InitialStatusFilter(params), TypeFilterOf(RequestType(params)))
  }

  /** The two readings differ only on a present but empty request_type. */
  lemma ReadingsAgreeUnlessEmpty(params: map<string, string>)
    ensures "request_type" !in params || params["request_type"] != "" ==>
      InitialFilters(params) == InitialFiltersAsWritten(params)
    ensures "request_type" in params && params["request_type"] == "" ==>
      InitialFilters(params).typeFilter == "" && InitialFiltersAsWritten(params).typeFilter == DefaultType
  {
  }

  /** Either Select's onChange writes both filters to the URL. */
  function WriteParams(f: RequestFilters): (params: map<string, string>)
    ensures params.Keys == {"status", "request_type"}
    ensures params["status"] == f.statusFilter && params["request_type"] == f.typeFilter
  {
    map["status" := f.statusFilter, "request_type" := f.typeFilter]
  }

  /** The discrepancy: choosing "All" types writes an empty request_type,
      which a reload reads back as 'Pending Requests'. */
  lemma AllTypesNotRestoredAsWritten(f: RequestFilters)
    requires ValidFilters(f) && f.typeFilter == ""
    ensures InitialFiltersAsWritten(WriteParams(f)).typeFilter == DefaultType
    ensures InitialFiltersAsWritten(WriteParams(f)) != f
  {
  }

  /** With only a missing parameter defaulting, a reload restores whatever
      the Selects wrote. */
  lemma ReloadRestoresFilters(f: RequestFilters)
    requires ValidFilters(f)
    ensures InitialFilters(WriteParams(f)) == f
  {
    assert "" !in StatusChoices && "" !in TypeChoices;
  }

  /** `getAllRequests(pending)`: the user's own requests, followed by the
      requests they oversee when they hold CheckInOutAsset. */
  function AllRequests(mine: seq<Request>, overseen: seq<Request>, pending: bool): (r: seq<Request>)
    ensures pending ==> r == mine + overseen
    ensures !pending ==> r == mine
  {
    if pending then mine + overseen else mine
  }

  /** Whether a request passes both filters; the type filter counts only for
      a user who oversees requests. */
  predicate Passes(x: Request, f: RequestFilters, me: int, oversees: bool)
  {
    (f.statusFilter != "" ==> RequestStatusName(x.status) == f.statusFilter)
    && (f.typeFilter != "" && oversees ==>
          (if f.typeFilter == "My Requests" then x.userId == me else x.userId != me))
  }

  /** The status filter. */
  function ByStatus(requests: seq<Request>, statusFilter: string): (r: seq<Request>)
    ensures statusFilter == "" ==> r == requests
    ensures forall x :: x in r <==> x in requests && (statusFilter != "" ==> RequestStatusName(x.status) == statusFilter)
  {
    if statusFilter != "" then Filter(requests, (x: Request) => RequestStatusName(x.status) == statusFilter)
    else requests
  }

  /** The type filter: 'My Requests' keeps the user's own, any other
      non-empty value the others'; only for a user who oversees requests. */
  function ByType(requests: seq<Request>, typeFilter: string, me: int, oversees: bool): (r: seq<Request>)
    ensures typeFilter == "" || !oversees ==> r == requests
    ensures forall x :: x in r <==>
      x in requests
      && (typeFilter != "" && oversees ==> (if typeFilter == "My Requests" then x.userId == me else x.userId != me))
  {
    if typeFilter != "" && oversees then
      if typeFilter == "My Requests" then Filter(requests, (x: Request) => x.userId == me)
      else Filter(requests, (x: Request) => x.userId != me)
    else requests
  }

  /** The effect that sets filteredRequests. */
  function FilteredRequests(requests: seq<Request>, f: RequestFilters, me: int, oversees: bool): seq<Request>
  {
    ByType(ByStatus(requests, f.statusFilter), f.typeFilter, me, oversees)
  }

  /** The two filters in a row are one order-keeping filter by Passes. */
  lemma FilteredIsOneFilter(requests: seq<Request>, f: RequestFilters, me: int, oversees: bool)
    ensures FilteredRequests(requests, f, me, oversees) == Filter(requests, (x: Request) => Passes(x, f, me, oversees))
  {
    var pass := (x: Request) => Passes(x, f, me, oversees);
    var byStatus := (x: Request) => RequestStatusName(x.status) == f.statusFilter;
    var byType := (x: Request) => if f.typeFilter == "My Requests" then x.userId == me else x.userId != me;
    var typed := f.typeFilter != "" && oversees;
    if f.statusFilter != "" && typed {
      FilterTwice(requests, byStatus, byType, pass);
      if f.typeFilter == "My Requests" {
        assert Filter(Filter(requests, byStatus), byType)
            == Filter(Filter(requests, byStatus), (x: Request) => x.userId == me) by {
          FilterSame(Filter(requests, byStatus), byType, (x: Request) => x.userId == me);
        }
      } else {
        assert Filter(Filter(requests, byStatus), byType)
            == Filter(Filter(requests, byStatus), (x: Request) => x.userId != me) by {
          FilterSame(Filter(requests, byStatus), byType, (x: Request) => x.userId != me);
        }
      }
    } else if f.statusFilter != "" {
      FilterSame(requests, byStatus, pass);
    } else if typed {
      if f.typeFilter == "My Requests" {
        FilterSame(requests, (x: Request) => x.userId == me, pass);
      } else {
        FilterSame(requests, (x: Request) => x.userId != me, pass);
      }
    } else {
      FilterKeepsAll(requests, pass);
    }
  }

  /** A user who oversees nothing sees the same list whatever the type filter. */
  lemma TypeFilterNeedsRole(requests: seq<Request>, f: RequestFilters, me: int)
    ensures FilteredRequests(requests, f, me, false) == FilteredRequests(requests, f.(typeFilter := ""), me, false)
  {
  }

  /** What the page renders: an error alert, or its title, whether the type
      Select is offered, the count and this page's rows. */
  datatype ListView = LoadError | Rows(title: string, typeSelect: bool, count: nat, rows: seq<Request>)

  function RequestListView(u: User, error: bool, filtered: seq<Request>, page: nat): (v: ListView)
    ensures v.LoadError? <==> error
    ensures v.Rows? ==> (v.title == "Requests" <==> Holds(u, CheckInOutAsset))
    ensures v.Rows? ==> (v.title == "My Requests" <==> !Holds(u, CheckInOutAsset))
    ensures v.Rows? ==> (v.typeSelect <==> Holds(u, CheckInOutAsset))
    ensures v.Rows? ==> v.count == |filtered| && |v.rows| <= PageSize
    ensures v.Rows? ==> forall k :: 0 <= k < |v.rows| ==>
      page * PageSize + k < |filtered| && v.rows[k] == filtered[page * PageSize + k]
  {
    if error then LoadError
    else
      var oversees := HasRole(u, CheckInOutAsset);
      Rows(if oversees then "Requests" else "My Requests", oversees, |filtered|, Page(filtered, page))
  }
}
