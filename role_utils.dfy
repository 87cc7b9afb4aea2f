// src/utils/role_utils.ts: whether a user holds a role, and over which label
// scopes. A grant whose scope is '*' covers every label.

module RoleUtils {
  import opened Seqs
  import opened Domain

  const Wildcard: string := "*"

  // The role names the pages check.
  const ReadAsset: string := "ReadAsset"
  const ReadUser: string := "ReadUser"
  const CheckInOutAsset: string := "CheckInOutAsset"
  const RequestAsset: string := "RequestAsset"
  const CreateEditAsset: string := "CreateEditAsset"
  const CreateEditUser: string := "CreateEditUser"
  const LinkAsset: string := "LinkAsset"
  const RetireAsset: string := "RetireAsset"
  const DeleteUser: string := "DeleteUser"
  const DisableUser: string := "DisableUser"
  const ResetPasswordUser: string := "ResetPasswordUser"

  /** The user holds some grant of the role. */
  predicate Holds(u: User, role: string)
  {
    exists i :: 0 <= i < |u.roles| && u.roles[i].role == role
  }

  /** The user holds the role with the given scope. */
  predicate Grants(u: User, role: string, scope: string)
  {
    exists i :: 0 <= i < |u.roles| && u.roles[i] == Role(role, scope)
  }

  /** labelsFromRoles: the user's grants of the role, in their original order. */
  function LabelsFromRoles(u: User, role: string): (grants: seq<Role>)
    ensures forall i :: 0 <= i < |grants| ==> grants[i] in u.roles && grants[i].role == role
    ensures forall i :: 0 <= i < |u.roles| && u.roles[i].role == role ==> u.roles[i] in grants
  {
    Filter(u.roles, (g: Role) => g.role == role)
  }

  /** Grants are selected list by list: the grants of a concatenation are the
      grants of its parts, in the same order. */
  lemma LabelsFromRolesConcat(u: User, a: seq<Role>, b: seq<Role>, role: string)
    ensures LabelsFromRoles(u.(roles := a + b), role)
         == LabelsFromRoles(u.(roles := a), role) + LabelsFromRoles(u.(roles := b), role)
  {
    FilterConcat(a, b, (g: Role) => g.role == role);
  }

  /** hasRole: at least one grant of the role. */
  function HasRole(u: User, role: string): (b: bool)
    ensures b <==> Holds(u, role)
  {
    var grants := LabelsFromRoles(u, role);
    if |grants| > 0 then
      assert grants[0] in u.roles;
      true
    else false
  }

  /** hasRoleAccessString: a '*' grant of the role admits every scope list;
      otherwise every requested scope needs its own grant. An empty list is
      admitted even without any grant, as `every` is vacuously true. */
  function HasRoleAccessString(u: User, role: string, scopes: seq<string>): (b: bool)
    ensures Grants(u, role, Wildcard) ==> b
    ensures !Grants(u, role, Wildcard) ==> (b <==> forall j :: 0 <= j < |scopes| ==> Grants(u, role, scopes[j]))
  {
    var grants := LabelsFromRoles(u, role);
    if Find(grants, (g: Role) => g.scope == Wildcard).Some? then true
    else Every(scopes, (s: string) => Find(grants, (g: Role) => g.scope == s).Some?)
  }

  /** Access is monotone: access to a list of scopes gives access to any list
      drawn from it, in particular every sub-list. */
  lemma AccessToSubList(u: User, role: string, scopes: seq<string>, fewer: seq<string>)
    requires forall j :: 0 <= j < |fewer| ==> fewer[j] in scopes
    requires HasRoleAccessString(u, role, scopes)
    ensures HasRoleAccessString(u, role, fewer)
  {
    if !Grants(u, role, Wildcard) {
      forall j | 0 <= j < |fewer|
        ensures Grants(u, role, fewer[j])
      {
        var k :| 0 <= k < |scopes| && scopes[k] == fewer[j];
      }
    }
  }

  /** hasRoleAccess: access to the names of the given labels, in order. */
  function HasRoleAccess(u: User, role: string, labels: seq<Label>): (b: bool)
    ensures Grants(u, role, Wildcard) ==> b
    ensures !Grants(u, role, Wildcard) ==> (b <==> forall j :: 0 <= j < |labels| ==> Grants(u, role, labels[j].name))
  {
    HasRoleAccessString(u, role, LabelNames(labels))
  }

  /** hasScopeAll: the user holds the role with scope '*'. */
  function HasScopeAll(u: User, role: string): (b: bool)
    ensures b <==> Grants(u, role, Wildcard)
  {
    Find(u.roles, (g: Role) => g.role == role && g.scope == Wildcard).Some?
  }

  /** A '*' grant implies holding the role and access to every scope list. */
  lemma ScopeAllGrantsEverything(u: User, role: string, scopes: seq<string>)
    requires HasScopeAll(u, role)
    ensures HasRole(u, role)
    ensures HasRoleAccessString(u, role, scopes)
  {
  }
}
