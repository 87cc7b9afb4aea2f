// src/pages/Assignments/AssignmentDetail.tsx: the early returns, the due chip,
// whether a return was late, the two action buttons and their handlers.

module AssignmentDetail {
  import opened Seqs
  import opened Domain
  import opened RoleUtils
  import opened DateUtils
  import opened AssetRow
  import opened AssignmentRow
  import AssignmentList

  datatype AssignmentScreen = Blank | NotFoundScreen | LoadErrorScreen | DetailScreen

  /** The early returns, in order: loading, missing, failed. */
  function AssignmentScreenFor(loading: bool, assignment: Option<Assignment>, error: bool): (s: AssignmentScreen)
    ensures s == Blank <==> loading
    ensures s == NotFoundScreen <==> !loading && assignment.None?
    ensures s == LoadErrorScreen <==> !loading && assignment.Some? && error
    ensures s == DetailScreen <==> !loading && assignment.Some? && !error
  {
    if loading then Blank
    else if assignment.None? then NotFoundScreen
    else if error then LoadErrorScreen
    else DetailScreen
  }

  /** returnedLate: returned, and later than the due date plus one day. */
  function ReturnedLate(x: Assignment): (late: bool)
    ensures late <==> x.returnedAt.Some? && x.dueDate + MsPerDay < x.returnedAt.value
  {
    x.returnedAt.Some? && AddDays(x.dueDate, 1) < x.returnedAt.value
  }

  /** A late return is one the list counts as returned and overdue from the
      moment of the return on, so the list shows it after the others. */
  lemma LateReturnSortsLast(x: Assignment, now: int)
    requires x.returnedAt.Some? && x.returnedAt.value <= now
    ensures ReturnedLate(x) ==> AssignmentList.ReturnedOverdue(x, now)
  {
  }

  /** A return within a day of the due instant is on time. */
  lemma ReturnWithinADayOnTime(x: Assignment)
    requires x.returnedAt.Some? && x.returnedAt.value <= x.dueDate + MsPerDay
    ensures !ReturnedLate(x)
  {
  }

  /** The returned section: absent while out, otherwise a Late or On Time chip. */
  function ReturnedStatus(x: Assignment): (chip: Option<Chip>)
    ensures chip.None? <==> x.returnedAt.None?
    ensures chip.Some? ==> (chip.value == Chip("Late", Error) <==> ReturnedLate(x))
    ensures chip.Some? ==> (chip.value == Chip("On Time", Success) <==> !ReturnedLate(x))
  {
    if x.returnedAt.None? then None
    else if ReturnedLate(x) then Some(Chip("Late", Error))
    else Some(Chip("On Time", Success))
  }

  datatype AssignmentButton = CheckInButton | RequestReturnButton | BackButton(path: string)

  /** `prevPage || '/assignments'`. */
  function AssignmentBackTarget(prevPage: Option<string>): (p: string)
    ensures p != ""
    ensures prevPage.Some? && prevPage.value != "" ==> p == prevPage.value
    ensures (prevPage.None? || prevPage.value == "") ==> p == "/assignments"
  {
    if prevPage.Some? && prevPage.value != "" then prevPage.value else "/assignments"
  }

  /** The buttons in order: Check In with CheckInOutAsset access over the
      asset's labels while the assignment is out, Request Immediate Return
      when additionally the due instant is still ahead, then Back. */
  function AssignmentButtons(u: User, x: Assignment, now: int, prevPage: Option<string>): (b: seq<AssignmentButton>)
    ensures CheckInButton in b <==> HasRoleAccess(u, CheckInOutAsset, x.assetLabels) && x.returnedAt.None?
    ensures RequestReturnButton in b <==>
      HasRoleAccess(u, CheckInOutAsset, x.assetLabels) && x.returnedAt.None? && x.dueDate - now > 0
    ensures |b| > 0 && b[|b| - 1] == BackButton(AssignmentBackTarget(prevPage))
  {
    var act := HasRoleAccess(u, CheckInOutAsset, x.assetLabels) && x.returnedAt.None?;
    (if act then [CheckInButton] else [])
    + (if act && x.dueDate - now > 0 then [RequestReturnButton] else [])
    + [BackButton(AssignmentBackTarget(prevPage))]
  }

  /** Request Immediate Return never appears without Check In, and neither
      appears once the asset is back. */
  lemma ReturnRequestNeedsCheckIn(u: User, x: Assignment, now: int, prevPage: Option<string>)
    ensures RequestReturnButton in AssignmentButtons(u, x, now, prevPage) ==>
      CheckInButton in AssignmentButtons(u, x, now, prevPage)
    ensures x.returnedAt.Some? ==>
      AssignmentButtons(u, x, now, prevPage) == [BackButton(AssignmentBackTarget(prevPage))]
  {
  }

  /** handleConfirmCloseCheckIn. */
  function HandleConfirmCloseCheckIn(routeId: int, confirm: bool, outcome: Outcome): (run: HandlerRun)
    ensures !confirm ==> run == HandlerRun(None, true)
    ensures confirm ==> run.issued == Some(CheckInAssetByAssignment(routeId))
    ensures run.result <==> !confirm || outcome == Succeeded
  {
    RunConfirmed(confirm, CheckInAssetByAssignment(routeId), outcome)
  }

  /** handleConfirmCloseReturn. */
  function HandleConfirmCloseReturn(routeId: int, confirm: bool, outcome: Outcome): (run: HandlerRun)
    ensures !confirm ==> run == HandlerRun(None, true)
    ensures confirm ==> run.issued == Some(RequestReturnAsset(routeId))
    ensures run.result <==> !confirm || outcome == Succeeded
  {
    RunConfirmed(confirm, RequestReturnAsset(routeId), outcome)
  }
}
