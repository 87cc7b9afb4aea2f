// src/pages/Users/UserDetail.tsx: which actions the page offers on a user,
// the three confirm handlers, the one-time password it shows after a reset,
// and the wording of the enable/disable dialog.

module UserDetail {
  import opened Seqs
  import opened Domain
  import RoleUtils

  /** The early returns before the detail. */
  datatype UserScreen = Blank | NotFoundScreen | LoadErrorScreen | DetailScreen

  function UserScreenFor(loading: bool, target: Option<User>, error: bool): (s: UserScreen)
    ensures s == Blank <==> loading
    ensures s == NotFoundScreen <==> !loading && target.None?
    ensures s == LoadErrorScreen <==> !loading && target.Some? && error
    ensures s == DetailScreen <==> !loading && target.Some? && !error
  {
    if loading then Blank
    else if target.None? then NotFoundScreen
    else if error then LoadErrorScreen
    else DetailScreen
  }

  datatype UserButton =
    | DeleteButton
    | ToggleActiveButton(verb: string)
    | ResetPasswordButton
    | AddLabelsButton
    | AddRolesButton
    | BackButton(path: string)

  /** The action buttons are rendered only for a user who is neither deleted
      nor the signed-in user. */
  predicate ActionsShown(me: User, target: User)
  {
    !target.isDeleted && target.id != me.id
  }

  /** The toggle button's verb follows is_disabled. */
  function ToggleVerb(target: User): (verb: string)
    ensures target.isDisabled <==> verb == "Enable"
    ensures !target.isDisabled <==> verb == "Disable"
  {
    if target.isDisabled then "Enable" else "Disable"
  }

  /** `prevPage || '/users'`. */
  function UserBackTarget(prevPage: Option<string>): string
  {
    if prevPage.Some? && prevPage.value != "" then prevPage.value else "/users"
  }

  /** Delete and the active toggle. */
  function ManageButtons(delete: bool, toggle: bool, verb: string): (r: seq<UserButton>)
    ensures DeleteButton in r <==> delete
    ensures forall v :: ToggleActiveButton(v) in r <==> toggle && v == verb
    ensures forall x :: x in r ==> x.DeleteButton? || x.ToggleActiveButton?
  {
    When(delete, DeleteButton) + When(toggle, ToggleActiveButton(verb))
  }

  /** Reset Password, Add Labels and Add Roles. */
  function EditButtons(reset: bool, edit: bool): (r: seq<UserButton>)
    ensures ResetPasswordButton in r <==> reset
    ensures AddLabelsButton in r <==> edit
    ensures AddRolesButton in r <==> edit
    ensures forall x :: x in r ==> x.ResetPasswordButton? || x.AddLabelsButton? || x.AddRolesButton?
  {
    When(reset, ResetPasswordButton) + When(edit, AddLabelsButton) + When(edit, AddRolesButton)
  }

  /** The action buttons in render order, given which are allowed. */
  function ActionLayout(delete: bool, toggle: bool, reset: bool, edit: bool, verb: string): (r: seq<UserButton>)
    ensures DeleteButton in r <==> delete
    ensures forall v :: ToggleActiveButton(v) in r <==> toggle && v == verb
    ensures ResetPasswordButton in r <==> reset
    ensures AddLabelsButton in r <==> edit
    ensures AddRolesButton in r <==> edit
    ensures forall x :: x in r ==> !x.BackButton?
  {
    var a := ManageButtons(delete, toggle, verb);
    var b := EditButtons(reset, edit);
    assert forall x :: x in a + b <==> x in a || x in b;
    a + b
  }

  /** The action buttons; each needs its own role over the target's labels. */
  function ActionButtons(me: User, target: User): (r: seq<UserButton>)
    ensures DeleteButton in r <==> RoleUtils.HasRoleAccess(me, RoleUtils.DeleteUser, target.labels)
    ensures forall v :: ToggleActiveButton(v) in r <==>
      RoleUtils.HasRoleAccess(me, RoleUtils.DisableUser, target.labels) && v == ToggleVerb(target)
    ensures ResetPasswordButton in r <==> RoleUtils.HasRoleAccess(me, RoleUtils.ResetPasswordUser, target.labels)
    ensures AddLabelsButton in r <==> RoleUtils.HasRoleAccess(me, RoleUtils.CreateEditUser, target.labels)
    ensures AddRolesButton in r <==> RoleUtils.HasRoleAccess(me, RoleUtils.CreateEditUser, target.labels)
    ensures forall x :: x in r ==> !x.BackButton?
  {
    ActionLayout(RoleUtils.HasRoleAccess(me, RoleUtils.DeleteUser, target.labels),
                 RoleUtils.HasRoleAccess(me, RoleUtils.DisableUser, target.labels),
                 RoleUtils.HasRoleAccess(me, RoleUtils.ResetPasswordUser, target.labels),
                 RoleUtils.HasRoleAccess(me, RoleUtils.CreateEditUser, target.labels),
                 ToggleVerb(target))
  }

  /** All the page's buttons: the actions when shown, then Back. */
  function UserButtons(me: User, target: User, prevPage: Option<string>): seq<UserButton>
  {
    (if ActionsShown(me, target) then ActionButtons(me, target) else []) + [BackButton(UserBackTarget(prevPage))]
  }

  /** A deleted user, or the signed-in user, gets only Back. */
  lemma OnlyBackWithoutActions(me: User, target: User, prevPage: Option<string>)
    requires !ActionsShown(me, target)
    ensures UserButtons(me, target, prevPage) == [BackButton(UserBackTarget(prevPage))]
  {
  }

  /** Otherwise each action button is there exactly when its role is, and
      Back is last. */
  lemma ButtonsFollowRoles(me: User, target: User, prevPage: Option<string>)
    requires ActionsShown(me, target)
    ensures var b := UserButtons(me, target, prevPage);
      && (DeleteButton in b <==> RoleUtils.HasRoleAccess(me, RoleUtils.DeleteUser, target.labels))
      && (ToggleActiveButton(ToggleVerb(target)) in b <==> RoleUtils.HasRoleAccess(me, RoleUtils.DisableUser, target.labels))
      && (ResetPasswordButton in b <==> RoleUtils.HasRoleAccess(me, RoleUtils.ResetPasswordUser, target.labels))
      && (AddLabelsButton in b <==> RoleUtils.HasRoleAccess(me, RoleUtils.CreateEditUser, target.labels))
      && (AddRolesButton in b <==> RoleUtils.HasRoleAccess(me, RoleUtils.CreateEditUser, target.labels))
      && b[|b| - 1] == BackButton(UserBackTarget(prevPage))
  {
    var delete := RoleUtils.HasRoleAccess(me, RoleUtils.DeleteUser, target.labels);
    var toggle := RoleUtils.HasRoleAccess(me, RoleUtils.DisableUser, target.labels);
    var reset := RoleUtils.HasRoleAccess(me, RoleUtils.ResetPasswordUser, target.labels);
    var edit := RoleUtils.HasRoleAccess(me, RoleUtils.CreateEditUser, target.labels);
    assert UserButtons(me, target, prevPage)
        == ActionLayout(delete, toggle, reset, edit, ToggleVerb(target)) + [BackButton(UserBackTarget(prevPage))];
    LayoutWithBack(delete, toggle, reset, edit, ToggleVerb(target), UserBackTarget(prevPage));
  }

  /** Appending Back keeps every action button's presence and puts Back last. */
  lemma LayoutWithBack(delete: bool, toggle: bool, reset: bool, edit: bool, verb: string, back: string)
    ensures var b := ActionLayout(delete, toggle, reset, edit, verb) + [BackButton(back)];
      && (DeleteButton in b <==> delete)
      && (ToggleActiveButton(verb) in b <==> toggle)
      && (ResetPasswordButton in b <==> reset)
      && (AddLabelsButton in b <==> edit)
      && (AddRolesButton in b <==> edit)
      && b[|b| - 1] == BackButton(back)
  {
    var a := ActionLayout(delete, toggle, reset, edit, verb);
    assert forall x :: x in a + [BackButton(back)] <==> x in a || x == BackButton(back);
  }

  /** handleConfirmCloseDelete. */
  function HandleConfirmCloseDelete(routeId: int, confirm: bool, outcome: Outcome): (run: HandlerRun)
    ensures !confirm ==> run == HandlerRun(None, true)
    ensures confirm ==> run.issued == Some(Domain.DeleteUser(routeId))
    ensures run.result <==> !confirm || outcome == Succeeded
  {
    RunConfirmed(confirm, Domain.DeleteUser(routeId), outcome)
  }

  /** The request the active toggle makes: enable a disabled user, disable
      any other. */
  function ActiveCall(target: User, routeId: int): (c: Call)
    ensures c.EnableUser? <==> target.isDisabled
    ensures c.EnableUser? || c.DisableUser?
    ensures c.userId == routeId
  {
    if target.isDisabled then EnableUser(routeId) else Domain.DisableUser(routeId)
  }

  /** handleConfirmCloseActive. */
  function HandleConfirmCloseActive(target: User, routeId: int, confirm: bool, outcome: Outcome): (run: HandlerRun)
    ensures !confirm ==> run == HandlerRun(None, true)
    ensures confirm ==> run.issued == Some(ActiveCall(target, routeId))
    ensures run.result <==> !confirm || outcome == Succeeded
  {
    RunConfirmed(confirm, ActiveCall(target, routeId), outcome)
  }

  /** The active dialog's wording: its title and the verb of its messages. */
  datatype Wording = Wording(title: string, verb: string)

  /** The dialog as written: keyed on is_deleted. */
  function ActiveWordingAsWritten(target: User): (w: Wording)
    ensures target.isDeleted ==> w == Wording("Enable User", "enable")
    ensures !target.isDeleted ==> w == Wording("Disable User", "disable")
  {
    if target.isDeleted then Wording("Enable User", "enable") else Wording("Disable User", "disable")
  }

  /** The discrepancy: the toggle is reachable only for a user who is not
      deleted, so the dialog always says "disable", also when the button reads
      Enable and the request enables. */
  lemma ActiveWordingContradictsAction(me: User, target: User, prevPage: Option<string>, routeId: int)
    requires ActionsShown(me, target) && target.isDisabled
    requires RoleUtils.HasRoleAccess(me, RoleUtils.DisableUser, target.labels)
    ensures ToggleActiveButton("Enable") in UserButtons(me, target, prevPage)
    ensures ActiveWordingAsWritten(target).verb == "disable"
    ensures HandleConfirmCloseActive(target, routeId, true, Succeeded).issued == Some(EnableUser(routeId))
  {
    var a := ActionButtons(me, target);
    assert UserButtons(me, target, prevPage) == a + [BackButton(UserBackTarget(prevPage))];
    assert ToggleActiveButton("Enable") in a;
  }

  /** The dialog as evidently intended: keyed on is_disabled, like the button. */
  function ActiveWording(target: User): (w: Wording)
    ensures target.isDisabled ==> w == Wording("Enable User", "enable")
    ensures !target.isDisabled ==> w == Wording("Disable User", "disable")
  {
    if target.isDisabled then Wording("Enable User", "enable") else Wording("Disable User", "disable")
  }

  /** With that keying the dialog names the request the handler makes and the
      verb on the button. */
  lemma ActiveWordingMatchesAction(target: User, routeId: int)
    ensures ActiveWording(target).verb == "enable" <==> ActiveCall(target, routeId).EnableUser?
    ensures ActiveWording(target).verb == "disable" <==> ActiveCall(target, routeId).DisableUser?
    ensures ActiveWording(target).title == ToggleVerb(target) + " User"
  {
  }

  /** The page's one piece of mutable state: the password a reset returned,
      shown in the success popup until it is dismissed. */
  class UserDetailPage {
    const routeId: int
    var password: string
    var reloads: nat

    constructor(id: int)
      ensures routeId == id && password == "" && reloads == 0
    {
      routeId := id;
      password := "";
      reloads := 0;
    }

    /** handleConfirmCloseReset: a successful reset stores the new password. */
    method HandleConfirmCloseReset(confirm: bool, outcome: Outcome, newPassword: string) returns (run: HandlerRun)
      modifies this
      ensures run == RunConfirmed(confirm, Domain.ResetPasswordUser(routeId), outcome)
      ensures confirm && outcome == Succeeded ==> password == newPassword
      ensures !(confirm && outcome == Succeeded) ==> password == old(password)
      ensures reloads == old(reloads)
    {
      run := RunConfirmed(confirm, Domain.ResetPasswordUser(routeId), outcome);
      if confirm && outcome == Succeeded {
        password := newPassword;
      }
    }

    /** The reset popup's onComplete: forget the password and reload the user. */
    method OnResetComplete()
      modifies this
      ensures password == "" && reloads == old(reloads) + 1
    {
      password := "";
      reloads := reloads + 1;
    }
  }
}
