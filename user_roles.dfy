// src/pages/Users/UserRolesPage.tsx: the role grants of a user, edited as
// "role: scope" strings; which roles and scopes the signed-in user may hand
// out, and when a grant may be removed.

module UserRoles {
  import opened Seqs
  import opened Text
  import opened Domain
  import opened RoleUtils

  const Separator: string := ": "

  /** How a grant is shown and stored in the page's list: `role + ': ' + scope`. */
  function FormatRole(g: Role): (e: string)
    ensures |e| == |g.role| + 2 + |g.scope|
    ensures e[..|g.role|] == g.role && e[|g.role|..|g.role| + 2] == Separator && e[|g.role| + 2..] == g.scope
  {
    g.role + Separator + g.scope
  }

  /** How a list entry is read back: the text before the first ': ' is the
      role, and the remaining pieces joined again with ': ' are the scope. */
  function ParseRole(e: string): Role
  {
    var parts := SplitOn(e, Separator);
    Role(parts[0], Join(parts[1..], Separator))
  }

  /** The role name contains no ': '. */
  predicate NoSeparatorIn(r: string)
  {
    forall i :: 0 <= i < |r| - 1 ==> !(r[i] == ':' && r[i + 1] == ' ')
  }

  /** A role name without ': ' has no ': ' starting inside it once formatted:
      the one that could straddle its end is followed by ':', not ' '. */
  lemma FirstSeparatorAfterRole(g: Role)
    requires NoSeparatorIn(g.role)
    ensures NoSepBefore(FormatRole(g), Separator, |g.role|)
  {
    var e := FormatRole(g);
    forall i: nat | i < |g.role|
      ensures !OccursAt(e, Separator, i)
    {
      assert e[i..i + 2] == [e[i], e[i + 1]];
      if i + 1 < |g.role| {
        assert e[i] == g.role[i] && e[i + 1] == g.role[i + 1];
      } else {
        assert e[i + 1] == ':';
      }
    }
  }

  /** Formatting then parsing gives the grant back whenever the role name has
      no ': ' (the scope may contain any text, ': ' included). */
  lemma {:induction false} ParseFormatRoundTrip(g: Role)
    requires NoSeparatorIn(g.role)
    ensures ParseRole(FormatRole(g)) == g
  {
    FirstSeparatorAfterRole(g);
    assert FormatRole(g) == g.role + Separator + g.scope;
    SplitAfterFirst(g.role, Separator, g.scope);
    var parts := SplitOn(FormatRole(g), Separator);
    assert parts[0] == g.role;
    assert parts[1..] == SplitOn(g.scope, Separator);
    JoinSplit(g.scope, Separator);
  }

  /** The discrepancy the requirement above rules out: a role named "a: b"
      with scope "c" reads back as role "a" with scope "b: c". */
  lemma RoleWithSeparatorMisparsed()
    ensures FormatRole(Role("a: b", "c")) == FormatRole(Role("a", "b: c"))
    ensures ParseRole(FormatRole(Role("a: b", "c"))) != Role("a: b", "c")
  {
    assert FormatRole(Role("a: b", "c")) == "a: b: c";
    assert FormatRole(Role("a", "b: c")) == "a: b: c";
    assert NoSeparatorIn("a");
    ParseFormatRoundTrip(Role("a", "b: c"));
  }

  /** `user.roles.map((role) => role.role)`. */
  function RoleNames(u: User): (names: seq<string>)
    ensures |names| == |u.roles|
    ensures forall i :: 0 <= i < |u.roles| ==> names[i] == u.roles[i].role
  {
    Map(u.roles, (g: Role) => g.role)
  }

  /** availableRoles: the signed-in user's distinct role names, in the order
      of their first grant. */
  function AvailableRoles(u: User): (roles: seq<string>)
    ensures Distinct(roles)
    ensures forall x :: x in roles <==> Holds(u, x)
    ensures forall i :: 0 <= i < |roles| ==> roles[i] in RoleNames(u)
    ensures forall i, j :: 0 <= i < j < |roles| ==> IndexOf(RoleNames(u), roles[i]) < IndexOf(RoleNames(u), roles[j])
  {
    var names := RoleNames(u);
    var r := Dedup(names);
    assert forall x :: Holds(u, x) ==> x in names by {
      forall x | Holds(u, x) ensures x in names {
        var i :| 0 <= i < |u.roles| && u.roles[i].role == x;
        assert names[i] == x;
      }
    }
    r
  }

  /** availableScopes for the selected role: every label name and then '*'
      for a '*' grant of it, otherwise the scopes of its grants. */
  function AvailableScopes(u: User, role: string, allLabels: seq<Label>): (scopes: seq<string>)
    ensures Grants(u, role, Wildcard) ==> scopes == LabelNames(allLabels) + [Wildcard]
    ensures !Grants(u, role, Wildcard) ==> forall x :: x in scopes <==> Grants(u, role, x)
  {
    if HasScopeAll(u, role) then LabelNames(allLabels) + [Wildcard]
    else
      var grants := LabelsFromRoles(u, role);
      var scopes := Map(grants, (g: Role) => g.scope);
      assert forall x :: Grants(u, role, x) ==> x in scopes by {
        forall x | Grants(u, role, x) ensures x in scopes {
          var i :| 0 <= i < |u.roles| && u.roles[i] == Role(role, x);
          var k :| 0 <= k < |grants| && grants[k] == u.roles[i];
          assert scopes[k] == x;
        }
      }
      scopes
  }

  /** Every scope offered for a role passes the permission check of
      handleAddRole, so the alert is reached only through other values. */
  lemma OfferedScopesAssignable(u: User, role: string, allLabels: seq<Label>, scope: string)
    requires scope in AvailableScopes(u, role, allLabels)
    ensures HasRoleAccessString(u, role, [scope])
  {
  }

  /** The chip's delete icon: offered when the signed-in user has access to
      the entry's role over its scope. */
  function DeleteOffered(u: User, entry: string): (offered: bool)
    ensures Grants(u, ParseRole(entry).role, Wildcard) ==> offered
    ensures !Grants(u, ParseRole(entry).role, Wildcard) ==>
      (offered <==> Grants(u, ParseRole(entry).role, ParseRole(entry).scope))
  {
    var g := ParseRole(entry);
    HasRoleAccessString(u, g.role, [g.scope])
  }

  /** Every grant the signed-in user holds may be removed from another user. */
  lemma OwnGrantsRemovable(u: User, g: Role)
    requires g in u.roles
    requires NoSeparatorIn(g.role)
    ensures DeleteOffered(u, FormatRole(g))
  {
    ParseFormatRoundTrip(g);
  }

  /** The early returns. The self-edit refusal comes after the load error. */
  datatype RolesScreen = Blank | NotFoundScreen | LoadErrorScreen | UnauthorizedScreen | Editor

  function RolesScreenFor(loading: bool, targetId: Option<int>, error: bool, currentUserId: int): (s: RolesScreen)
    ensures s == Blank <==> loading
    ensures s == NotFoundScreen <==> !loading && targetId.None?
    ensures s == LoadErrorScreen <==> !loading && targetId.Some? && error
    ensures s == UnauthorizedScreen <==> !loading && targetId == Some(currentUserId) && !error
    ensures s == Editor <==> !loading && targetId.Some? && !error && targetId.value != currentUserId
  {
    if loading then Blank
    else if targetId.None? then NotFoundScreen
    else if error then LoadErrorScreen
    else if targetId.value == currentUserId then UnauthorizedScreen
    else Editor
  }

  /** What handleAddRole does with the current selections. */
  datatype AddOutcome = NothingSelected | PermissionAlert | Assigns(call: Call)

  function AddRoleStep(u: User, targetId: int, role: string, scope: string): (r: AddOutcome)
    ensures r == NothingSelected <==> role == "" || scope == ""
    ensures r == PermissionAlert <==> role != "" && scope != "" && !HasRoleAccessString(u, role, [scope])
    ensures r.Assigns? ==> r.call == AssignRole(targetId, role, scope)
  {
    if role == "" || scope == "" then NothingSelected
    else if !HasRoleAccessString(u, role, [scope]) then PermissionAlert
    else Assigns(AssignRole(targetId, role, scope))
  }

  /** Choosing an offered role and one of its offered scopes always leads to
      the assignment. */
  lemma OfferedSelectionAssigns(u: User, targetId: int, allLabels: seq<Label>, role: string, scope: string)
    requires role in AvailableRoles(u) && role != ""
    requires scope in AvailableScopes(u, role, allLabels) && scope != ""
    ensures AddRoleStep(u, targetId, role, scope) == Assigns(AssignRole(targetId, role, scope))
  {
    OfferedScopesAssignable(u, role, allLabels, scope);
  }

  /** The page's editable state. */
  class RolesEditor {
    const targetId: int
    var entries: seq<string>
    var selectedRole: string
    var selectedScope: string
    var loading: bool

    constructor(id: int)
      ensures targetId == id && entries == [] && selectedRole == "" && selectedScope == "" && !loading
    {
      targetId := id;
      entries := [];
      selectedRole := "";
      selectedScope := "";
      loading := false;
    }

    /** The effect run when the target user loads: one entry per grant. */
    method LoadTarget(roles: seq<Role>)
      modifies this
      ensures entries == Map(roles, FormatRole)
      ensures selectedRole == old(selectedRole) && selectedScope == old(selectedScope) && loading == old(loading)
    {
      entries := Map(roles, FormatRole);
    }

    /** The Role select's onChange also clears the scope. */
    method SelectRole(role: string)
      modifies this
      ensures selectedRole == role && selectedScope == ""
      ensures entries == old(entries) && loading == old(loading)
    {
      selectedRole := role;
      selectedScope := "";
    }

    /** The Scope Autocomplete's onChange: `value || ''`. */
    method SelectScope(value: Option<string>)
      modifies this
      ensures selectedScope == (if value.Some? then value.value else "")
      ensures entries == old(entries) && selectedRole == old(selectedRole) && loading == old(loading)
    {
      selectedScope := if value.Some? then value.value else "";
    }

    /** handleAddRole, with the request settled. A successful assignment
        appends its entry and clears both selections; otherwise nothing
        changes. */
    method HandleAddRole(u: User, outcome: Outcome) returns (step: AddOutcome)
      modifies this
      ensures step == AddRoleStep(u, targetId, old(selectedRole), old(selectedScope))
      ensures step.Assigns? && outcome == Succeeded ==>
        entries == old(entries) + [FormatRole(Role(old(selectedRole), old(selectedScope)))]
        && selectedRole == "" && selectedScope == ""
      ensures !(step.Assigns? && outcome == Succeeded) ==>
        entries == old(entries) && selectedRole == old(selectedRole) && selectedScope == old(selectedScope)
      ensures step.Assigns? ==> !loading
      ensures !step.Assigns? ==> loading == old(loading)
    {
      step := AddRoleStep(u, targetId, selectedRole, selectedScope);
      if !step.Assigns? {
        return;
      }
      loading := true;
      if outcome == Succeeded {
        entries := entries + [FormatRole(Role(selectedRole, selectedScope))];
        selectedRole := "";
        selectedScope := "";
      }
      loading := false;
    }

    /** handleDeleteRole for one chip: removes the parsed grant, and on
        success every equal entry. */
    method HandleDeleteRole(entry: string, outcome: Outcome) returns (call: Call)
      modifies this
      ensures call == RemoveRole(targetId, ParseRole(entry).role, ParseRole(entry).scope)
      ensures outcome == Succeeded ==> entries == Filter(old(entries), (e: string) => e != entry)
      ensures outcome == Threw ==> entries == old(entries)
      ensures selectedRole == old(selectedRole) && selectedScope == old(selectedScope) && !loading
    {
      loading := true;
      var g := ParseRole(entry);
      call := RemoveRole(targetId, g.role, g.scope);
      if outcome == Succeeded {
        entries := Filter(entries, (e: string) => e != entry);
      }
      loading := false;
    }
  }

  /** Deleting an entry leaves none equal to it and keeps every other one. */
  lemma DeleteRemovesAllCopies(entries: seq<string>, entry: string)
    ensures entry !in Filter(entries, (e: string) => e != entry)
    ensures forall i :: 0 <= i < |entries| && entries[i] != entry ==> entries[i] in Filter(entries, (e: string) => e != entry)
  {
  }

  /** The Add Role button's disabled expression. */
  function AddRoleDisabled(role: string, scope: string, loading: bool): (disabled: bool)
    ensures !disabled <==> role != "" && scope != "" && !loading
  {
    role == "" || scope == "" || loading
  }

  /** An enabled button never reaches the empty-selection return. */
  lemma EnabledAddIsChecked(u: User, targetId: int, role: string, scope: string)
    requires !AddRoleDisabled(role, scope, false)
    ensures AddRoleStep(u, targetId, role, scope) != NothingSelected
  {
  }
}
