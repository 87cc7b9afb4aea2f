// src/pages/Assets/AssetList.tsx: the status and search filters, their
// round trip through the URL's search parameters, and the page slice.

module AssetList {
  import opened Seqs
  import opened Domain
  import opened RoleUtils

  /** The status names the Select offers besides "All" (''). */
  const StatusChoices: seq<string> := ["Available", "In Use", "Maintenance", "Reserved"]

  /** Every status an asset can have is a choice, under its display name. */
  lemma StatusChoicesAreNames(s: AssetStatus)
    ensures AssetStatusName(s) in StatusChoices
  {
    match s
    case Available => assert StatusChoices[0] == AssetStatusName(s);
    case InUse => assert StatusChoices[1] == AssetStatusName(s);
    case Maintenance => assert StatusChoices[2] == AssetStatusName(s);
    case Reserved => assert StatusChoices[3] == AssetStatusName(s);
  }

  /** `searchParams.get(key) || ''`: a missing parameter reads as ''. */
  function Param(params: map<string, string>, key: string): (v: string)
    ensures key in params ==> v == params[key]
    ensures key !in params ==> v == ""
  {
    if key in params then params[key] else ""
  }

  /** The initial status filter: the URL's status if it is one of the four
      choices, '' otherwise. */
  function InitialStatusFilter(params: map<string, string>): (f: string)
    ensures f == "" || f in StatusChoices
    ensures Param(params, "status") in StatusChoices ==> f == params["status"]
    ensures Param(params, "status") !in StatusChoices ==> f == ""
  {
    var status := Param(params, "status");
    if status in StatusChoices then status else ""
  }

  /** Both filters as the page holds them. */
  datatype Filters = Filters(searchTerm: string, statusFilter: string)

  /** The filters a (re)loaded page starts with. */
  function InitialFilters(params: map<string, string>): (f: Filters)
    ensures f.searchTerm == Param(params, "search")
    ensures f.statusFilter == InitialStatusFilter(params)
  {
    Filters(Param(params, "search"), InitialStatusFilter(params))
  }

  /** Either onChange writes both filters to the URL, replacing every other
      parameter. */
  function WriteParams(f: Filters): (params: map<string, string>)
    ensures params.Keys == {"search", "status"}
    ensures params["search"] == f.searchTerm && params["status"] == f.statusFilter
  {
    map["search" := f.searchTerm, "status" := f.statusFilter]
  }

  /** The search box's onChange: the new term, and the URL rewritten with the
      status filter unchanged. */
  function ChangeSearch(f: Filters, value: string): (r: (Filters, map<string, string>))
    ensures r.0 == f.(searchTerm := value)
    ensures r.1 == WriteParams(r.0)
  {
    var g := Filters(value, f.statusFilter);
    (g, WriteParams(g))
  }

  /** The status Select's onChange, whose value is '' or one of the choices. */
  function ChangeStatus(f: Filters, value: string): (r: (Filters, map<string, string>))
    requires value == "" || value in StatusChoices
    ensures r.0 == f.(statusFilter := value)
    ensures r.1 == WriteParams(r.0)
  {
    var g := Filters(f.searchTerm, value);
    (g, WriteParams(g))
  }

  /** Reloading after either change restores both filters: the URL written by
      a change reads back as the filters the change produced. */
  lemma ReloadRestoresFilters(f: Filters, value: string, searchChange: bool)
    requires f.statusFilter == "" || f.statusFilter in StatusChoices
    requires !searchChange ==> value == "" || value in StatusChoices
    ensures searchChange ==> InitialFilters(ChangeSearch(f, value).1) == ChangeSearch(f, value).0
    ensures !searchChange ==> InitialFilters(ChangeStatus(f, value).1) == ChangeStatus(f, value).0
  {
    assert "" !in StatusChoices;
  }

  /** The filters a page starts with always satisfy the Select's constraint,
      so the lemma above applies to every reachable state. */
  lemma InitialStatusIsChoice(params: map<string, string>)
    ensures InitialFilters(params).statusFilter == "" || InitialFilters(params).statusFilter in StatusChoices
  {
  }

  predicate HasStatus(a: Asset, statusFilter: string)
  {
    AssetStatusName(a.status) == statusFilter
  }

  /** The effect that sets filteredAssets. searchResults is what Fuse returns
      for the term; it replaces the list only when the term is non-empty. The
      status filter then keeps the assets whose status equals it. */
  function FilteredAssets(assets: seq<Asset>, f: Filters, searchResults: seq<Asset>): (r: seq<Asset>)
    ensures var base := if f.searchTerm != "" then searchResults else assets;
      && (forall i :: 0 <= i < |r| ==> r[i] in base)
      && (f.statusFilter != "" ==> forall i :: 0 <= i < |r| ==> HasStatus(r[i], f.statusFilter))
      && (f.statusFilter != "" ==> forall i :: 0 <= i < |base| && HasStatus(base[i], f.statusFilter) ==> base[i] in r)
      && (f.statusFilter == "" ==> r == base)
  {
    var results := if f.searchTerm != "" then searchResults else assets;
    if f.statusFilter != "" then Filter(results, (a: Asset) => HasStatus(a, f.statusFilter)) else results
  }

  /** With neither filter set the list is every asset, in order. */
  lemma NoFiltersShowsAll(assets: seq<Asset>, searchResults: seq<Asset>)
    ensures FilteredAssets(assets, Filters("", ""), searchResults) == assets
  {
  }

  /** The status filter keeps order: filtering a concatenation filters each
      part. */
  lemma StatusFilterKeepsOrder(a: seq<Asset>, b: seq<Asset>, statusFilter: string, searchResults: seq<Asset>)
    ensures FilteredAssets(a + b, Filters("", statusFilter), searchResults)
         == FilteredAssets(a, Filters("", statusFilter), searchResults)
          + FilteredAssets(b, Filters("", statusFilter), searchResults)
  {
    if statusFilter != "" {
      FilterConcat(a, b, (x: Asset) => HasStatus(x, statusFilter));
    }
  }

  /** What the page renders: an error alert, or the table's rows for the
      current page. */
  datatype ListView = LoadError | Rows(newButton: bool, count: nat, rows: seq<Asset>)

  function AssetListView(u: User, error: bool, filtered: seq<Asset>, page: nat): (v: ListView)
    ensures v.LoadError? <==> error
    ensures v.Rows? ==> v.newButton == Holds(u, CreateEditAsset) && v.count == |filtered|
    ensures v.Rows? ==> |v.rows| <= PageSize
    ensures v.Rows? ==> forall k :: 0 <= k < |v.rows| ==> page * PageSize + k < |filtered| && v.rows[k] == filtered[page * PageSize + k]
  {
    if error then LoadError else Rows(HasRole(u, CreateEditAsset), |filtered|, Page(filtered, page))
  }

  /** Every filtered asset appears on exactly one page, at its own position. */
  lemma EveryAssetOnItsPage(u: User, filtered: seq<Asset>, i: nat)
    requires i < |filtered|
    ensures var v := AssetListView(u, false, filtered, i / PageSize);
      i % PageSize < |v.rows| && v.rows[i % PageSize] == filtered[i]
  {
    PageCovers(filtered, i);
  }
}
