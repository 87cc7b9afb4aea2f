// src/pages/Requests/RequestDetail.tsx: the early returns, the status chip,
// the approver line, the action buttons and the two confirm handlers.

module RequestDetail {
  import opened Seqs
  import opened Text
  import opened Domain
  import opened RoleUtils

  datatype RequestScreen = Blank | NotFoundScreen | LoadErrorScreen | DetailScreen

  /** The early returns, in order: loading, missing, failed. */
  function RequestScreenFor(loading: bool, request: Option<Request>, error: bool): (s: RequestScreen)
    ensures s == Blank <==> loading
    ensures s == NotFoundScreen <==> !loading && request.None?
    ensures s == LoadErrorScreen <==> !loading && request.Some? && error
    ensures s == DetailScreen <==> !loading && request.Some? && !error
  {
    if loading then Blank
    else if request.None? then NotFoundScreen
    else if error then LoadErrorScreen
    else DetailScreen
  }

  /** `statusColors[request.status]`: the map has no entry for Fulfilled, so
      that chip gets no colour. */
  function RequestStatusColour(s: RequestStatus): (c: Option<Colour>)
    ensures c == Some(Success) <==> s == Approved
    ensures c == Some(Error) <==> s == Rejected
    ensures c == Some(Primary) <==> s == Pending
    ensures c.None? <==> s == Fulfilled
  {
    match s
    case Approved => Some(Success)
    case Rejected => Some(Error)
    case Pending => Some(Primary)
    case Fulfilled => None
  }

  /** The "<status> By:" line, present exactly when the request has an approver. */
  function ApproverLine(r: Request): (line: Option<string>)
    ensures line.Some? <==> r.approver.Some?
    ensures line.Some? ==> line.value == RequestStatusName(r.status) + " By:"
  {
    if r.approver.Some? then Some(RequestStatusName(r.status) + " By:") else None
  }

  datatype RequestButton = ApproveButton | RejectButton | CheckOutButton(path: string) | BackButton(path: string)

  /** `prevPage || '/requests'`. */
  function RequestBackTarget(prevPage: Option<string>): (p: string)
    ensures p != ""
    ensures prevPage.Some? && prevPage.value != "" ==> p == prevPage.value
    ensures (prevPage.None? || prevPage.value == "") ==> p == "/requests"
  {
    if prevPage.Some? && prevPage.value != "" then prevPage.value else "/requests"
  }

  /** The buttons in order: Approve and Reject for a pending request, Check
      Out via Request (the relative link 'check-out') for an approved one,
      both only with CheckInOutAsset access over the asset's labels; then Back. */
  function RequestButtons(u: User, r: Request, prevPage: Option<string>): (b: seq<RequestButton>)
    ensures ApproveButton in b <==> HasRoleAccess(u, CheckInOutAsset, r.assetLabels) && r.status == Pending
    ensures RejectButton in b <==> ApproveButton in b
    ensures forall p :: CheckOutButton(p) in b <==>
      HasRoleAccess(u, CheckInOutAsset, r.assetLabels) && r.status == Approved
      && p == RequestPath(r.id) + "/check-out"
    ensures |b| > 0 && b[|b| - 1] == BackButton(RequestBackTarget(prevPage))
  {
    var access := HasRoleAccess(u, CheckInOutAsset, r.assetLabels);
    (if access && r.status == Pending then [ApproveButton, RejectButton] else [])
    + (if access && r.status == Approved then [CheckOutButton(RequestPath(r.id) + "/check-out")] else [])
    + [BackButton(RequestBackTarget(prevPage))]
  }

  /** Check Out never appears beside Approve or Reject, and a rejected or
      fulfilled request offers only Back. */
  lemma RequestButtonsExclusive(u: User, r: Request, prevPage: Option<string>)
    ensures var b := RequestButtons(u, r, prevPage);
      forall p :: !(CheckOutButton(p) in b && ApproveButton in b)
    ensures r.status == Rejected || r.status == Fulfilled ==>
      RequestButtons(u, r, prevPage) == [BackButton(RequestBackTarget(prevPage))]
  {
  }

  /** handleConfirmCloseApprove. */
  function HandleConfirmCloseApprove(routeId: int, confirm: bool, outcome: Outcome): (run: HandlerRun)
    ensures !confirm ==> run == HandlerRun(None, true)
    ensures confirm ==> run.issued == Some(ApproveRequest(routeId))
    ensures run.result <==> !confirm || outcome == Succeeded
  {
    RunConfirmed(confirm, ApproveRequest(routeId), outcome)
  }

  /** handleConfirmCloseReject. */
  function HandleConfirmCloseReject(routeId: int, confirm: bool, outcome: Outcome): (run: HandlerRun)
    ensures !confirm ==> run == HandlerRun(None, true)
    ensures confirm ==> run.issued == Some(RejectRequest(routeId))
    ensures run.result <==> !confirm || outcome == Succeeded
  {
    RunConfirmed(confirm, RejectRequest(routeId), outcome)
  }
}
