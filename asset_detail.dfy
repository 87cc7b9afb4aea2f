// src/pages/Assets/AssetDetail.tsx: what the detail page renders for an
// asset, which action buttons it offers, and its four confirm handlers.

module AssetDetail {
  import opened Seqs
  import opened Domain
  import opened RoleUtils
  import opened AssetRow

  /** The early returns before the detail itself. */
  datatype Screen = Blank | NotFoundScreen | LoadErrorScreen | RedirectToAssets | DetailScreen

  /** Loading renders nothing; then a missing asset, a load error and a
      deleted asset are checked in that order. */
  function DetailScreenFor(loading: bool, asset: Option<Asset>, error: bool): (s: Screen)
    ensures s == Blank <==> loading
    ensures s == NotFoundScreen <==> !loading && asset.None?
    ensures s == LoadErrorScreen <==> !loading && asset.Some? && error
    ensures s == RedirectToAssets <==> !loading && asset.Some? && !error && asset.value.isDeleted
    ensures s == DetailScreen <==> !loading && asset.Some? && !error && !asset.value.isDeleted
  {
    if loading then Blank
    else if asset.None? then NotFoundScreen
    else if error then LoadErrorScreen
    else if asset.value.isDeleted then RedirectToAssets
    else DetailScreen
  }

  datatype AssetButton =
    | CheckInButton
    | CheckOutButton
    | CheckInMaintenanceButton
    | CheckOutMaintenanceButton
    | EditButton
    | RetireButton
    | RequestButton
    | ViewRequestButton(path: string)
    | ViewAssignmentButton(path: string)
    | AddLabelsButton
    | LinkButton
    | BackButton(path: string)

  predicate ActiveRequest(r: Request) { r.status == Pending || r.status == Approved }

  /** The first pending or approved request for the asset, from anyone. */
  function OpenRequest(requests: seq<Request>, assetId: int): (r: Option<Request>)
    ensures r.Some? ==> r.value in requests && r.value.assetId == assetId && ActiveRequest(r.value)
    ensures r.None? <==> forall i :: 0 <= i < |requests| ==> !(requests[i].assetId == assetId && ActiveRequest(requests[i]))
    ensures r.Some? ==>
              exists i :: 0 <= i < |requests| && requests[i] == r.value
                && forall j :: 0 <= j < i ==> !(requests[j].assetId == assetId && ActiveRequest(requests[j]))
  {
    Find(requests, (q: Request) => q.assetId == assetId && ActiveRequest(q))
  }

  /** Whether the user already has a pending or approved request for the asset. */
  function HasOwnOpenRequest(requests: seq<Request>, assetId: int, userId: int): (b: bool)
    ensures b <==> exists i :: 0 <= i < |requests| && requests[i].assetId == assetId
                              && requests[i].userId == userId && ActiveRequest(requests[i])
  {
    Find(requests, (q: Request) => q.assetId == assetId && q.userId == userId && ActiveRequest(q)).Some?
  }

  /** The first assignment of the asset that has not been returned. */
  function OpenAssignment(assignments: seq<Assignment>, assetId: int): (r: Option<Assignment>)
    ensures r.Some? ==> r.value in assignments && r.value.assetId == assetId && r.value.returnedAt.None?
    ensures r.None? <==> forall i :: 0 <= i < |assignments| ==> !(assignments[i].assetId == assetId && assignments[i].returnedAt.None?)
    ensures r.Some? ==>
              exists i :: 0 <= i < |assignments| && assignments[i] == r.value
                && forall j :: 0 <= j < i ==> !(assignments[j].assetId == assetId && assignments[j].returnedAt.None?)
  {
    Find(assignments, (x: Assignment) => x.assetId == assetId && x.returnedAt.None?)
  }

  /** `prevPage || '/assets'`. */
  function BackTarget(prevPage: Option<string>): string
  {
    if prevPage.Some? && prevPage.value != "" then prevPage.value else "/assets"
  }

  /** Which buttons the page shows; the two View buttons carry the id they
      link to. */
  datatype Shown = Shown(checkIn: bool, checkOut: bool, checkInMaintenance: bool, checkOutMaintenance: bool,
                         edit: bool, retire: bool, request: bool, viewRequest: Option<int>,
                         viewAssignment: Option<int>, addLabels: bool, link: bool, back: string)

  predicate IsStatusButton(x: AssetButton)
  {
    x.CheckInButton? || x.CheckOutButton? || x.CheckInMaintenanceButton? || x.CheckOutMaintenanceButton?
  }

  predicate IsManageButton(x: AssetButton)
  {
    x.EditButton? || x.RetireButton? || x.RequestButton?
  }

  /** The four check-in and check-out buttons. */
  function StatusButtons(s: Shown): (b: seq<AssetButton>)
    ensures CheckInButton in b <==> s.checkIn
    ensures CheckOutButton in b <==> s.checkOut
    ensures CheckInMaintenanceButton in b <==> s.checkInMaintenance
    ensures CheckOutMaintenanceButton in b <==> s.checkOutMaintenance
    ensures forall x :: x in b ==> IsStatusButton(x)
  {
    When(s.checkIn, CheckInButton)
    + When(s.checkOut, CheckOutButton)
    + When(s.checkInMaintenance, CheckInMaintenanceButton)
    + When(s.checkOutMaintenance, CheckOutMaintenanceButton)
  }

  /** Edit, Retire and Request. */
  function ManageButtons(s: Shown): (b: seq<AssetButton>)
    ensures EditButton in b <==> s.edit
    ensures RetireButton in b <==> s.retire
    ensures RequestButton in b <==> s.request
    ensures forall x :: x in b ==> IsManageButton(x)
  {
    When(s.edit, EditButton) + When(s.retire, RetireButton) + When(s.request, RequestButton)
  }

  /** The two View buttons. */
  function ViewButtons(s: Shown): (b: seq<AssetButton>)
    ensures forall p :: ViewRequestButton(p) in b <==> s.viewRequest.Some? && p == RequestPath(s.viewRequest.value)
    ensures forall p :: ViewAssignmentButton(p) in b <==> s.viewAssignment.Some? && p == AssignmentPath(s.viewAssignment.value)
    ensures forall x :: x in b ==> x.ViewRequestButton? || x.ViewAssignmentButton?
  {
    When(s.viewRequest.Some?, ViewRequestButton(RequestPath(if s.viewRequest.Some? then s.viewRequest.value else 0)))
    + When(s.viewAssignment.Some?,
           ViewAssignmentButton(AssignmentPath(if s.viewAssignment.Some? then s.viewAssignment.value else 0)))
  }

  /** Add Labels and Link. */
  function LabelLinkButtons(s: Shown): (b: seq<AssetButton>)
    ensures AddLabelsButton in b <==> s.addLabels
    ensures LinkButton in b <==> s.link
    ensures forall x :: x in b ==> x.AddLabelsButton? || x.LinkButton?
  {
    When(s.addLabels, AddLabelsButton) + When(s.link, LinkButton)
  }

  /** The two View buttons, Add Labels and Link. */
  function LinkButtons(s: Shown): (b: seq<AssetButton>)
    ensures forall p :: ViewRequestButton(p) in b <==> s.viewRequest.Some? && p == RequestPath(s.viewRequest.value)
    ensures forall p :: ViewAssignmentButton(p) in b <==> s.viewAssignment.Some? && p == AssignmentPath(s.viewAssignment.value)
    ensures AddLabelsButton in b <==> s.addLabels
    ensures LinkButton in b <==> s.link
    ensures forall x :: x in b ==> x.ViewRequestButton? || x.ViewAssignmentButton? || x.AddLabelsButton? || x.LinkButton?
  {
    var v := ViewButtons(s);
    var w := LabelLinkButtons(s);
    assert forall x :: x in v + w <==> x in v || x in w;
    v + w
  }

  /** The buttons in render order, Back last. */
  function Layout(s: Shown): (b: seq<AssetButton>)
    ensures |b| > 0 && b[|b| - 1] == BackButton(s.back)
  {
    StatusButtons(s) + ManageButtons(s) + LinkButtons(s) + [BackButton(s.back)]
  }

  /** Membership in the layout is membership in one of its parts. */
  lemma InLayout(s: Shown, x: AssetButton)
    ensures x in Layout(s) <==>
      x in StatusButtons(s) || x in ManageButtons(s) || x in LinkButtons(s) || x == BackButton(s.back)
  {
    var b := StatusButtons(s) + ManageButtons(s) + LinkButtons(s);
    assert Layout(s) == b + [BackButton(s.back)];
    assert x in b <==> x in StatusButtons(s) + ManageButtons(s) || x in LinkButtons(s);
  }

  /** A check-in or check-out button is in the layout exactly when it is
      among the status buttons. */
  lemma InLayoutStatus(s: Shown, x: AssetButton)
    requires IsStatusButton(x)
    ensures x in Layout(s) <==> x in StatusButtons(s)
  {
    InLayout(s, x);
  }

  /** Edit, Retire or Request is in the layout exactly when it is among the
      manage buttons. */
  lemma InLayoutManage(s: Shown, x: AssetButton)
    requires IsManageButton(x)
    ensures x in Layout(s) <==> x in ManageButtons(s)
  {
    InLayout(s, x);
  }

  /** A View, Add Labels or Link button is in the layout exactly when it is
      among the link buttons. */
  lemma InLayoutLinks(s: Shown, x: AssetButton)
    requires x.ViewRequestButton? || x.ViewAssignmentButton? || x.AddLabelsButton? || x.LinkButton?
    ensures x in Layout(s) <==> x in LinkButtons(s)
  {
    InLayout(s, x);
  }

  /** Each check-in or check-out button is in the layout exactly when its
      flag is set. */
  lemma LayoutShowsStatus(s: Shown)
    ensures CheckInButton in Layout(s) <==> s.checkIn
    ensures CheckOutButton in Layout(s) <==> s.checkOut
    ensures CheckInMaintenanceButton in Layout(s) <==> s.checkInMaintenance
    ensures CheckOutMaintenanceButton in Layout(s) <==> s.checkOutMaintenance
  {
    InLayoutStatus(s, CheckInButton);
    InLayoutStatus(s, CheckOutButton);
    InLayoutStatus(s, CheckInMaintenanceButton);
    InLayoutStatus(s, CheckOutMaintenanceButton);
  }

  /** Edit, Retire and Request are in the layout exactly when their flags are
      set. */
  lemma LayoutShowsManage(s: Shown)
    ensures EditButton in Layout(s) <==> s.edit
    ensures RetireButton in Layout(s) <==> s.retire
    ensures RequestButton in Layout(s) <==> s.request
  {
    InLayoutManage(s, EditButton);
    InLayoutManage(s, RetireButton);
    InLayoutManage(s, RequestButton);
  }

  /** Add Labels and Link are in the layout exactly when their flags are set. */
  lemma LayoutShowsLinks(s: Shown)
    ensures AddLabelsButton in Layout(s) <==> s.addLabels
    ensures LinkButton in Layout(s) <==> s.link
  {
    InLayoutLinks(s, AddLabelsButton);
    InLayoutLinks(s, LinkButton);
  }

  /** A View button is in the layout exactly when its target is set, and then
      links to it. */
  lemma LayoutViews(s: Shown, p: string)
    ensures ViewRequestButton(p) in Layout(s) <==> s.viewRequest.Some? && p == RequestPath(s.viewRequest.value)
    ensures ViewAssignmentButton(p) in Layout(s) <==> s.viewAssignment.Some? && p == AssignmentPath(s.viewAssignment.value)
  {
    InLayoutLinks(s, ViewRequestButton(p));
    InLayoutLinks(s, ViewAssignmentButton(p));
  }

  /** The conditions AssetDetail.tsx renders each button under. requests and
      assignments are None while loading, after an error, or when undefined. */
  function ShownFor(u: User, a: Asset, requests: Option<seq<Request>>, assignments: Option<seq<Assignment>>,
                    prevPage: Option<string>): (s: Shown)
    ensures s.checkIn <==> HasRoleAccess(u, CheckInOutAsset, a.labels) && a.status == InUse
    ensures s.checkOut <==> HasRoleAccess(u, CheckInOutAsset, a.labels) && a.status == Available
    ensures s.checkOutMaintenance <==> s.checkOut
    ensures s.checkInMaintenance <==> HasRoleAccess(u, CheckInOutAsset, a.labels) && a.status == Maintenance
    ensures s.edit <==> HasRoleAccess(u, CreateEditAsset, a.labels)
    ensures s.addLabels <==> s.edit
    ensures s.retire <==> HasRoleAccess(u, RetireAsset, a.labels)
    ensures s.link <==> HasRoleAccess(u, LinkAsset, a.labels)
    ensures s.request <==>
      HasRoleAccess(u, RequestAsset, a.labels) && !HasRoleAccess(u, CheckInOutAsset, a.labels)
      && a.status == Available && requests.Some? && !HasOwnOpenRequest(requests.value, a.id, u.id)
    ensures s.viewRequest.Some? <==>
      HasRoleAccess(u, RequestAsset, a.labels) && a.status == Reserved && requests.Some?
      && OpenRequest(requests.value, a.id).Some?
    ensures s.viewRequest.Some? ==> s.viewRequest.value == OpenRequest(requests.value, a.id).value.id
    ensures s.viewAssignment.Some? <==>
      a.status == InUse && assignments.Some? && OpenAssignment(assignments.value, a.id).Some?
    ensures s.viewAssignment.Some? ==> s.viewAssignment.value == OpenAssignment(assignments.value, a.id).value.id
    ensures s.back == BackTarget(prevPage)
  {
    var cio := HasRoleAccess(u, CheckInOutAsset, a.labels);
    var edit := HasRoleAccess(u, CreateEditAsset, a.labels);
    var req := HasRoleAccess(u, RequestAsset, a.labels);
    var openRequest := if requests.Some? then OpenRequest(requests.value, a.id) else None;
    var openAssignment := if assignments.Some? then OpenAssignment(assignments.value, a.id) else None;
    Shown(
      checkIn := cio && a.status == InUse,
      checkOut := cio && a.status == Available,
      checkInMaintenance := cio && a.status == Maintenance,
      checkOutMaintenance := cio && a.status == Available,
      edit := edit,
      retire := HasRoleAccess(u, RetireAsset, a.labels),
      request := req && !cio && a.status == Available && requests.Some?
                 && !HasOwnOpenRequest(requests.value, a.id, u.id),
      viewRequest := if req && a.status == Reserved && openRequest.Some? then Some(openRequest.value.id) else None,
      viewAssignment := if a.status == InUse && openAssignment.Some? then Some(openAssignment.value.id) else None,
      addLabels := edit,
      link := HasRoleAccess(u, LinkAsset, a.labels),
      back := BackTarget(prevPage))
  }

  /** The action buttons the page renders, in order. */
  function Buttons(u: User, a: Asset, requests: Option<seq<Request>>, assignments: Option<seq<Assignment>>,
                   prevPage: Option<string>): seq<AssetButton>
  {
    Layout(ShownFor(u, a, requests, assignments, prevPage))
  }

  /** The check-in and check-out flags exclude each other, and Request excludes
      both. */
  predicate FlagsExclusive(s: Shown)
  {
    && !(s.checkIn && s.checkOut) && !(s.checkIn && s.checkInMaintenance) && !(s.checkOut && s.checkInMaintenance)
    && !(s.request && s.checkOut) && !(s.request && s.checkIn)
  }

  /** The status decides among the check-in and check-out flags, and
      requesting is never offered to a user who may check the asset out. */
  lemma ShownExclusive(u: User, a: Asset, requests: Option<seq<Request>>, assignments: Option<seq<Assignment>>,
                       prevPage: Option<string>)
    ensures FlagsExclusive(ShownFor(u, a, requests, assignments, prevPage))
  {
  }

  /** At most one kind of check-in or check-out button, Request never beside
      them, and Back last. */
  predicate ButtonsExclusiveIn(b: seq<AssetButton>, back: string)
  {
    && !(CheckInButton in b && CheckOutButton in b)
    && !(CheckInButton in b && CheckInMaintenanceButton in b)
    && !(CheckOutButton in b && CheckInMaintenanceButton in b)
    && !(RequestButton in b && CheckOutButton in b)
    && !(RequestButton in b && CheckInButton in b)
    && |b| > 0 && b[|b| - 1] == BackButton(back)
  }

  /** Exclusive flags give a layout with exclusive buttons, Back last. */
  lemma LayoutExclusive(s: Shown)
    requires FlagsExclusive(s)
    ensures ButtonsExclusiveIn(Layout(s), s.back)
  {
    InLayoutStatus(s, CheckInButton);
    InLayoutStatus(s, CheckOutButton);
    InLayoutStatus(s, CheckInMaintenanceButton);
    InLayoutManage(s, RequestButton);
  }

  /** At most one kind of check-in or check-out button is offered, Request
      never beside them, and Back is always last. */
  lemma ButtonsExclusive(u: User, a: Asset, requests: Option<seq<Request>>, assignments: Option<seq<Assignment>>,
                         prevPage: Option<string>)
    ensures ButtonsExclusiveIn(Buttons(u, a, requests, assignments, prevPage), BackTarget(prevPage))
  {
    var s := ShownFor(u, a, requests, assignments, prevPage);
    ShownExclusive(u, a, requests, assignments, prevPage);
    LayoutExclusive(s);
  }

  /** The page's four confirmed actions. */
  datatype DetailAction = Retire | CheckIn | CheckInFromMaintenance | CheckOutForMaintenance

  function ActionCall(action: DetailAction, id: int): (c: Call)
    ensures c.DeleteAsset? || c.CheckInAsset? || c.CheckInAssetMaintenance? || c.CheckOutAssetMaintenance?
    ensures c.assetId == id
    ensures c.DeleteAsset? <==> action == Retire
  {
    match action
    case Retire => DeleteAsset(id)
    case CheckIn => CheckInAsset(id)
    case CheckInFromMaintenance => CheckInAssetMaintenance(id)
    case CheckOutForMaintenance => CheckOutAssetMaintenance(id)
  }

  /** handleConfirmRetire, handleConfirmCheckIn, handleConfirmCheckInMain and
      handleConfirmCheckOutMain: on confirm, the action's request for the
      route's asset id; false only when it throws. */
  function HandleConfirm(action: DetailAction, id: int, confirm: bool, outcome: Outcome): (run: HandlerRun)
    ensures !confirm ==> run == HandlerRun(None, true)
    ensures confirm ==> run.issued == Some(ActionCall(action, id))
    ensures run.result <==> !confirm || outcome == Succeeded
  {
    if confirm then
      match outcome
      case Succeeded => HandlerRun(Some(ActionCall(action, id)), true)
      case Threw => HandlerRun(Some(ActionCall(action, id)), false)
    else HandlerRun(None, true)
  }
}
