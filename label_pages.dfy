// src/pages/Assets/AssetLabelsPage.tsx and src/pages/Users/UserLabelsPage.tsx:
// the two pages that edit the labels of an asset or of a user. Their logic is
// the same apart from the role they check (CreateEditAsset or
// CreateEditUser), the backend calls, and the user page's refusal to edit the
// signed-in user's own labels.

module LabelPages {
  import opened Seqs
  import opened Text
  import opened Domain
  import opened RoleUtils

  /** Which page: the labels of an asset or of a user. */
  datatype Target = AssetTarget | UserTarget

  /** The role the page's available labels are derived from. */
  function EditRole(t: Target): (role: string)
    ensures t.AssetTarget? ==> role == CreateEditAsset
    ensures t.UserTarget? ==> role == CreateEditUser
  {
    match t
    case AssetTarget => CreateEditAsset
    case UserTarget => CreateEditUser
  }

  function AssignCall(t: Target, targetId: int, labelId: int): Call
  {
    match t
    case AssetTarget => AssignLabelAsset(targetId, labelId)
    case UserTarget => AssignLabelUser(targetId, labelId)
  }

  function DeleteCall(t: Target, targetId: int, labelId: int): Call
  {
    match t
    case AssetTarget => DeleteLabelAsset(targetId, labelId)
    case UserTarget => DeleteLabelUser(targetId, labelId)
  }

  /** The early returns: the user page alone refuses the signed-in user. */
  datatype LabelScreen = Blank | NotFoundScreen | UnauthorizedScreen | LoadErrorScreen | Editor

  function LabelScreenFor(t: Target, loading: bool, targetId: Option<int>, currentUserId: int, error: bool): (s: LabelScreen)
    ensures s == Blank <==> loading
    ensures s == NotFoundScreen <==> !loading && targetId.None?
    ensures s == UnauthorizedScreen <==> !loading && t.UserTarget? && targetId == Some(currentUserId)
    ensures s == LoadErrorScreen <==>
      !loading && targetId.Some? && error && !(t.UserTarget? && targetId.value == currentUserId)
    ensures s == Editor <==>
      !loading && targetId.Some? && !error && !(t.UserTarget? && targetId.value == currentUserId)
  {
    if loading then Blank
    else if targetId.None? then NotFoundScreen
    else if t.UserTarget? && targetId.value == currentUserId then UnauthorizedScreen
    else if error then LoadErrorScreen
    else Editor
  }

  /** availableLabels: every label name for a '*' grant of the page's role,
      otherwise the scopes of the user's grants of it. */
  function AvailableLabels(u: User, t: Target, allLabels: seq<Label>): (names: seq<string>)
    ensures Grants(u, EditRole(t), Wildcard) ==> names == LabelNames(allLabels)
    ensures !Grants(u, EditRole(t), Wildcard) ==> forall x :: x in names <==> Grants(u, EditRole(t), x)
  {
    if HasScopeAll(u, EditRole(t)) then LabelNames(allLabels)
    else
      var grants := LabelsFromRoles(u, EditRole(t));
      var scopes := Map(grants, (g: Role) => g.scope);
      assert forall x :: Grants(u, EditRole(t), x) ==> x in scopes by {
        forall x | Grants(u, EditRole(t), x) ensures x in scopes {
          var i :| 0 <= i < |u.roles| && u.roles[i] == Role(EditRole(t), x);
          var k :| 0 <= k < |grants| && grants[k] == u.roles[i];
          assert scopes[k] == x;
        }
      }
      scopes
  }

  /** The Autocomplete's options: the available names not yet attached, in
      order. The test is `!attached.find((ul) => ul == l)`, and find returns
      the name it found, so an attached name that is the empty string reads
      as not found and stays among the options. */
  function Options(available: seq<string>, attached: seq<string>): (options: seq<string>)
    ensures forall i :: 0 <= i < |options| ==> options[i] in available && (options[i] == "" || options[i] !in attached)
    ensures forall i :: 0 <= i < |available| && (available[i] == "" || available[i] !in attached) ==>
      available[i] in options
  {
    Filter(available, (l: string) => l == "" || l !in attached)
  }

  /** The empty name survives in the options even when it is attached. */
  lemma AttachedEmptyNameOffered()
    ensures Options([""], [""]) == [""]
  {
    assert Options([""], [""]) == [""] + Options([], [""]);
  }

  /** filterOptions then drops it with `includes`, so it is never shown. */
  lemma AttachedEmptyNameNotShown(matched: seq<string>, input: string, available: seq<string>, attached: seq<string>)
    requires "" in attached
    ensures "" !in FilterOptions(matched, input, available, attached)
  {
    var r := FilterOptions(matched, input, available, attached);
    forall i | 0 <= i < |r|
      ensures r[i] != ""
    {
      if r[i] in attached {
        assert |r[i]| == |"Add " + Trim(input)| >= 4;
      }
    }
  }

  /** Whether filterOptions appends the "Add <input>" suggestion. */
  predicate SuggestsNew(input: string, available: seq<string>, attached: seq<string>)
  {
    input != "" && Trim(input) !in available && Trim(input) !in attached
  }

  /** filterOptions. matched is what MUI's text filter keeps of the options
      for the input; the attached names are dropped from it and the
      suggestion, if any, goes last. */
  function FilterOptions(matched: seq<string>, input: string, available: seq<string>, attached: seq<string>): (r: seq<string>)
    ensures SuggestsNew(input, available, attached) <==> |r| == |Filter(matched, (l: string) => l !in attached)| + 1
    ensures SuggestsNew(input, available, attached) ==> r[|r| - 1] == "Add " + Trim(input)
    ensures forall i :: 0 <= i < |r| && r[i] in attached ==>
      SuggestsNew(input, available, attached) && i == |r| - 1
    ensures forall i :: 0 <= i < |matched| && matched[i] !in attached ==> matched[i] in r
    ensures |Filter(matched, (l: string) => l !in attached)| <= |r| <= |Filter(matched, (l: string) => l !in attached)| + 1
    ensures r[..|Filter(matched, (l: string) => l !in attached)|] == Filter(matched, (l: string) => l !in attached)
  {
    var filtered := Filter(matched, (l: string) => l !in attached);
    if SuggestsNew(input, available, attached) then filtered + ["Add " + Trim(input)] else filtered
  }

  /** When the options were the Autocomplete's (none attached), a suggestion
      offers a name that is neither available nor attached, and all the other
      entries are available. */
  lemma FilterOptionsOffersNewOrAvailable(matched: seq<string>, input: string, available: seq<string>, attached: seq<string>)
    requires forall i :: 0 <= i < |matched| ==> matched[i] in Options(available, attached)
    ensures var r := FilterOptions(matched, input, available, attached);
      forall i :: 0 <= i < |r| ==>
        r[i] in available || (SuggestsNew(input, available, attached) && i == |r| - 1 && r[i] == "Add " + Trim(input))
  {
    var filtered := Filter(matched, (l: string) => l !in attached);
    forall i | 0 <= i < |filtered| ensures filtered[i] in available {
      assert filtered[i] in matched;
    }
  }

  /** `allLabels.find((label) => label.name == name)`. */
  function LabelNamed(allLabels: seq<Label>, name: string): (r: Option<Label>)
    ensures r.Some? ==> r.value in allLabels && r.value.name == name
    ensures r.None? <==> name !in LabelNames(allLabels)
  {
    var r := Find(allLabels, (l: Label) => l.name == name);
    assert r.None? ==> name !in LabelNames(allLabels);
    r
  }

  /** The Add button's disabled expression. */
  function AddDisabled(loading: bool, loadingLabels: bool, selected: Option<string>, allLabels: seq<Label>): (disabled: bool)
    ensures !disabled <==> !loading && !loadingLabels && selected.Some? && selected.value != ""
                           && selected.value in LabelNames(allLabels)
  {
    loading || loadingLabels || selected.None? || selected.value == "" || LabelNamed(allLabels, selected.value).None?
  }

  /** What handleAddLabel requests: nothing without a selection; the
      assignment of the selected label when a label has that name. When none
      has, `find(...)!.id` throws inside the try and nothing is requested. */
  function AddCall(t: Target, targetId: int, selected: Option<string>, allLabels: seq<Label>): (c: Option<Call>)
    ensures c.Some? <==> selected.Some? && selected.value != "" && selected.value in LabelNames(allLabels)
    ensures c.Some? ==> c.value == AssignCall(t, targetId, LabelNamed(allLabels, selected.value).value.id)
  {
    if selected.None? || selected.value == "" then None
    else match LabelNamed(allLabels, selected.value)
      case None => None
      case Some(l) => Some(AssignCall(t, targetId, l.id))
  }

  /** An enabled Add button always issues the assignment. */
  lemma EnabledAddAssigns(t: Target, targetId: int, selected: Option<string>, allLabels: seq<Label>)
    requires !AddDisabled(false, false, selected, allLabels)
    ensures AddCall(t, targetId, selected, allLabels).Some?
    ensures AddCall(t, targetId, selected, allLabels).value.labelId == LabelNamed(allLabels, selected.value).value.id
  {
  }

  /** `prev.filter((l) => l != name)`: every occurrence removed. */
  function RemoveAll(names: seq<string>, name: string): (r: seq<string>)
    ensures name !in r
    ensures forall i :: 0 <= i < |names| && names[i] != name ==> names[i] in r
    ensures forall i :: 0 <= i < |r| ==> r[i] in names
  {
    Filter(names, (l: string) => l != name)
  }

  /** Removing a name that is not there changes nothing. */
  lemma RemoveAbsent(names: seq<string>, name: string)
    requires name !in names
    ensures RemoveAll(names, name) == names
  {
    FilterKeepsAll(names, (l: string) => l != name);
  }

  /** Removing a name just added leaves the list as it was before, if the name
      was not there. */
  lemma RemoveUndoesAdd(names: seq<string>, name: string)
    requires name !in names
    ensures RemoveAll(names + [name], name) == names
  {
    FilterConcat(names, [name], (l: string) => l != name);
    RemoveAbsent(names, name);
    assert Filter([name], (l: string) => l != name) == [];
  }

  /** The page's editable state: the attached names, the Autocomplete's
      selection, the loading flag and the create-label confirm. */
  class LabelEditor {
    const target: Target
    const targetId: int
    var attached: seq<string>
    var selected: Option<string>
    var loading: bool
    var confirmOpen: bool

    constructor(t: Target, id: int)
      ensures target == t && targetId == id
      ensures attached == [] && selected == None && !loading && !confirmOpen
    {
      target := t;
      targetId := id;
      attached := [];
      selected := None;
      loading := false;
      confirmOpen := false;
    }

    /** The effect run when the target loads: its label names, in order. */
    method LoadTarget(labels: seq<Label>)
      modifies this
      ensures attached == LabelNames(labels)
      ensures selected == old(selected) && loading == old(loading) && confirmOpen == old(confirmOpen)
    {
      attached := LabelNames(labels);
    }

    /** The Autocomplete's onChange. A chosen "Add X" for which no label is
        named "Add X" opens the create confirm and selects X; any other value
        (or none) is selected as it is. */
    method OnChange(value: Option<string>, allLabels: seq<Label>)
      modifies this
      ensures value.Some? && StartsWith(value.value, "Add ") && value.value !in LabelNames(allLabels) ==>
        confirmOpen && selected == Some(value.value[4..])
      ensures !(value.Some? && StartsWith(value.value, "Add ") && value.value !in LabelNames(allLabels)) ==>
        confirmOpen == old(confirmOpen) && selected == value
      ensures attached == old(attached) && loading == old(loading)
    {
      if value.Some? && StartsWith(value.value, "Add ") && LabelNamed(allLabels, value.value).None? {
        confirmOpen := true;
        selected := Some(value.value[4..]);
      } else {
        selected := value;
      }
    }

    /** handleAddLabel, with the request settled. A successful assignment
        appends the name and clears the selection; a failure, or no request,
        changes nothing. */
    method HandleAddLabel(allLabels: seq<Label>, outcome: Outcome) returns (call: Option<Call>)
      modifies this
      ensures call == AddCall(target, targetId, old(selected), allLabels)
      ensures call.Some? && outcome == Succeeded ==> attached == old(attached) + [old(selected).value] && selected == None
      ensures !(call.Some? && outcome == Succeeded) ==> attached == old(attached) && selected == old(selected)
      ensures old(selected).Some? && old(selected).value != "" ==> !loading
      ensures !(old(selected).Some? && old(selected).value != "") ==> loading == old(loading)
      ensures confirmOpen == old(confirmOpen)
    {
      call := None;
      if selected.None? || selected.value == "" {
        return;
      }
      loading := true;
      var found := LabelNamed(allLabels, selected.value);
      if found.Some? {
        call := Some(AssignCall(target, targetId, found.value.id));
        if outcome == Succeeded {
          attached := attached + [selected.value];
          selected := None;
        }
      }
      loading := false;
    }

    /** handleRemoveLabel for one chip's name. A successful removal drops every
        occurrence of the name. */
    method HandleRemoveLabel(name: string, allLabels: seq<Label>, outcome: Outcome) returns (call: Option<Call>)
      modifies this
      ensures call.Some? <==> name in LabelNames(allLabels)
      ensures call.Some? ==> call.value == DeleteCall(target, targetId, LabelNamed(allLabels, name).value.id)
      ensures call.Some? && outcome == Succeeded ==> attached == RemoveAll(old(attached), name)
      ensures !(call.Some? && outcome == Succeeded) ==> attached == old(attached)
      ensures !loading && selected == old(selected) && confirmOpen == old(confirmOpen)
    {
      loading := true;
      call := None;
      var found := LabelNamed(allLabels, name);
      if found.Some? {
        call := Some(DeleteCall(target, targetId, found.value.id));
        if outcome == Succeeded {
          attached := RemoveAll(attached, name);
        }
      }
      loading := false;
    }

    /** handleConfirmClose for the create confirm: creates a label named as the
        selection (which the confirm's opening set). */
    method HandleConfirmClose(confirm: bool, outcome: Outcome) returns (run: HandlerRun)
      requires selected.Some?
      modifies this
      ensures run == RunConfirmed(confirm, CreateLabel(old(selected).value), outcome)
      ensures confirm ==> !loading
      ensures !confirm ==> loading == old(loading)
      ensures attached == old(attached) && selected == old(selected) && confirmOpen == old(confirmOpen)
    {
      if !confirm {
        return HandlerRun(None, true);
      }
      loading := true;
      run := RunConfirmed(true, CreateLabel(selected.value), outcome);
      loading := false;
    }
  }

  /** `prevPage || '/assets/<id>'` or `'/users/<id>'`. */
  function LabelsBackTarget(t: Target, id: int, prevPage: Option<string>): (p: string)
    ensures prevPage.Some? && prevPage.value != "" ==> p == prevPage.value
    ensures (prevPage.None? || prevPage.value == "") && t.AssetTarget? ==> p == AssetPath(id)
    ensures (prevPage.None? || prevPage.value == "") && t.UserTarget? ==> p == UserPath(id)
  {
    if prevPage.Some? && prevPage.value != "" then prevPage.value
    else match t
      case AssetTarget => AssetPath(id)
      case UserTarget => UserPath(id)
  }
}
