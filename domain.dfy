// The records the backend returns, as plain values, and the backend calls the
// pages issue. Dates are integer milliseconds in local wall-clock time.

module Domain {
  import opened Seqs
  import opened Text

  datatype Label = Label(id: int, name: string)

  /** One role grant: the role name and the label scope it applies to ('*' for all). */
  datatype Role = Role(role: string, scope: string)

  datatype User = User(
    id: int,
    name: string,
    email: string,
    isDisabled: bool,
    isDeleted: bool,
    resetPassword: bool,
    labels: seq<Label>,
    roles: seq<Role>)

  datatype AssetStatus = Available | InUse | Maintenance | Reserved

  datatype Relation = License | Consumable | Peripheral

  datatype LinkedAsset = LinkedAsset(id: int, assetId: int, linkedId: int, relation: Relation)

  /** An asset; lastMaintenance is None when the backend sends an empty string. */
  datatype Asset = Asset(
    id: int,
    assetTag: string,
    name: string,
    status: AssetStatus,
    purchaseDate: int,
    lastMaintenance: Option<int>,
    maintenanceRate: int,
    isDeleted: bool,
    linkedTo: seq<LinkedAsset>,
    labels: seq<Label>)

  datatype RequestStatus = Approved | Rejected | Pending | Fulfilled

  /** A request for an asset; assetLabels are the labels of the requested asset. */
  datatype Request = Request(
    id: int,
    userId: int,
    assetId: int,
    status: RequestStatus,
    requestedAt: int,
    approver: Option<int>,
    assetLabels: seq<Label>)

  /** An assignment of an asset to a user; returnedAt is None while checked out. */
  datatype Assignment = Assignment(
    id: int,
    assetId: int,
    userId: int,
    assignedById: int,
    dueDate: int,
    returnedAt: Option<int>,
    assetLabels: seq<Label>)

  /** The MUI palette names the chips use. */
  datatype Colour = Success | Primary | Warning | Secondary | Error | Info

  function AssetStatusName(s: AssetStatus): string
  {
    match s
    case Available => "Available"
    case InUse => "In Use"
    case Maintenance => "Maintenance"
    case Reserved => "Reserved"
  }

  function RequestStatusName(s: RequestStatus): string
  {
    match s
    case Approved => "Approved"
    case Rejected => "Rejected"
    case Pending => "Pending"
    case Fulfilled => "Fulfilled"
  }

  function RelationName(r: Relation): string
  {
    match r
    case License => "License"
    case Consumable => "Consumable"
    case Peripheral => "Peripheral"
  }

  /** `labels.map((label) => label.name)`. */
  function LabelNames(labels: seq<Label>): (names: seq<string>)
    ensures |names| == |labels|
    ensures forall i :: 0 <= i < |labels| ==> names[i] == labels[i].name
  {
    Map(labels, (l: Label) => l.name)
  }

  /** The detail pages' routes. */
  function AssetPath(id: int): string { "/assets/" + IntToString(id) }
  function AssignmentPath(id: int): string { "/assignments/" + IntToString(id) }
  function RequestPath(id: int): string { "/requests/" + IntToString(id) }
  function UserPath(id: int): string { "/users/" + IntToString(id) }

  /** A detail route names exactly one record. */
  lemma PathsInjective(a: int, b: int)
    ensures AssetPath(a) == AssetPath(b) ==> a == b
    ensures AssignmentPath(a) == AssignmentPath(b) ==> a == b
    ensures RequestPath(a) == RequestPath(b) ==> a == b
    ensures UserPath(a) == UserPath(b) ==> a == b
  {
    if AssetPath(a) == AssetPath(b) { PrefixedIdInjective("/assets/", a, b); }
    if AssignmentPath(a) == AssignmentPath(b) { PrefixedIdInjective("/assignments/", a, b); }
    if RequestPath(a) == RequestPath(b) { PrefixedIdInjective("/requests/", a, b); }
    if UserPath(a) == UserPath(b) { PrefixedIdInjective("/users/", a, b); }
  }

  /** The text fields of an asset that the asset form sends. */
  datatype AssetFields = AssetFields(
    assetTag: string,
    name: string,
    description: string,
    purchaseDate: string,
    purchaseCost: string,
    maintenanceRate: string)

  /** The backend requests a page can issue, with their arguments. */
  datatype Call =
    | DeleteAsset(assetId: int)
    | CheckInAsset(assetId: int)
    | CheckInAssetMaintenance(assetId: int)
    | CheckOutAssetMaintenance(assetId: int)
    | AddAsset(fields: AssetFields, labels: seq<Label>)
    | UpdateAsset(assetId: int, fields: AssetFields)
    | CreateLabel(labelName: string)
    | AssignLabelAsset(assetId: int, labelId: int)
    | DeleteLabelAsset(assetId: int, labelId: int)
    | AssignLabelUser(userId: int, labelId: int)
    | DeleteLabelUser(userId: int, labelId: int)
    | CheckOutAsset(assetId: int, userId: int, dueInDays: nat)
    | LinkAssets(parentId: int, childId: int, relationship: string)
    | UnlinkAssets(parentId: int, childId: int)
    | CheckInAssetByAssignment(assignmentId: int)
    | RequestReturnAsset(assignmentId: int)
    | CheckOutAssetByRequest(requestId: int, dueInDays: nat)
    | ApproveRequest(requestId: int)
    | RejectRequest(requestId: int)
    | DeleteUser(userId: int)
    | ResetPasswordUser(userId: int)
    | EnableUser(userId: int)
    | DisableUser(userId: int)
    | CreateUser(userName: string, email: string, password: string, labelNames: seq<string>)
    | AssignRole(userId: int, role: string, scope: string)
    | RemoveRole(userId: int, role: string, scope: string)
    | ResetPasswordSelf(password: string)

  /** How an awaited backend request settled. */
  datatype Outcome = Succeeded | Threw

  /** What a confirm handler did: the request it issued, if any, and the boolean it returned. */
  datatype HandlerRun = HandlerRun(issued: Option<Call>, result: bool)

  /** The handler shape the pages share: a cancelled confirm returns true and
      issues nothing; a confirmed one issues the request and returns true
      exactly when it did not throw. */
  function RunConfirmed(confirm: bool, call: Call, outcome: Outcome): (run: HandlerRun)
    ensures !confirm ==> run.issued.None? && run.result
    ensures confirm ==> run.issued == Some(call)
    ensures confirm ==> (run.result <==> outcome == Succeeded)
  {
    if !confirm then HandlerRun(None, true)
    else HandlerRun(Some(call), outcome == Succeeded)
  }
}
