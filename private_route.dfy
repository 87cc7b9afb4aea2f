// src/components/PrivateRoute.tsx: the chain of early returns that guards a
// route. The stored login expiry and the clock are inputs.

module PrivateRoute {
  import opened Seqs
  import opened Domain
  import opened RoleUtils

  /** The 'login expiry' entry of local storage: absent or empty, a string
      `new Date` cannot parse, or an instant. */
  datatype Expiry = Missing | Unparseable | At(ms: int)

  datatype Outcome = RedirectLogin | RedirectResetPassword | ShowUnauthorized | ShowChildren

  /** What the guard renders, and whether it called logout on the way. */
  datatype Verdict = Verdict(outcome: Outcome, loggedOut: bool)

  const ResetPasswordPath: string := "/reset-password"

  /** `!expiry || new Date(expiry) < new Date()`; an unparseable date compares
      false, so it does not count as expired. */
  predicate Expired(expiry: Expiry, now: int)
  {
    expiry.Missing? || (expiry.At? && expiry.ms < now)
  }

  /** `roles.some((group) => group.every((role) => hasRole(user, role)))`. */
  predicate Admits(u: User, groups: seq<seq<string>>)
  {
    exists g :: 0 <= g < |groups| && HoldsAll(u, groups[g])
  }

  /** The user holds every role of the group. */
  predicate HoldsAll(u: User, group: seq<string>)
  {
    forall k :: 0 <= k < |group| ==> Holds(u, group[k])
  }

  /** PrivateRoute: the first check that fails decides what is rendered. */
  function Decide(user: Option<User>, expiry: Expiry, now: int, pathname: string,
                 roles: Option<seq<seq<string>>>): (g: Verdict)
    // no user: /login, before anything else and without logout
    ensures user.None? ==> g == Verdict(RedirectLogin, false)
    // logout is called exactly for a logged-in user whose expiry is missing or past
    ensures g.loggedOut <==> user.Some? && Expired(expiry, now)
    ensures g.outcome == RedirectLogin <==> user.None? || Expired(expiry, now)
    ensures g.outcome == RedirectResetPassword <==>
              user.Some? && !Expired(expiry, now) && user.value.resetPassword && pathname != ResetPasswordPath
    ensures g.outcome == ShowChildren <==>
              user.Some? && !Expired(expiry, now)
              && !(user.value.resetPassword && pathname != ResetPasswordPath)
              && (roles.None? || Admits(user.value, roles.value))
    ensures g.outcome == ShowUnauthorized <==>
              user.Some? && !Expired(expiry, now)
              && !(user.value.resetPassword && pathname != ResetPasswordPath)
              && roles.Some? && !Admits(user.value, roles.value)
    // an empty list of groups admits nobody; an empty group admits everybody
    ensures roles == Some([]) ==> g.outcome != ShowChildren
    ensures (roles.Some? && [] in roles.value && user.Some? && !Expired(expiry, now)
             && !(user.value.resetPassword && pathname != ResetPasswordPath))
            ==> g.outcome == ShowChildren
  {
    if user.None? then Verdict(RedirectLogin, false)
    else if Expired(expiry, now) then Verdict(RedirectLogin, true)
    else if user.value.resetPassword && pathname != ResetPasswordPath then Verdict(RedirectResetPassword, false)
    else if roles.Some? && !Any(roles.value, (group: seq<string>) => Every(group, (role: string) => HasRole(user.value, role)))
    then
      assert !Admits(user.value, roles.value) by {
        var u, groups := user.value, roles.value;
        forall i | 0 <= i < |groups|
          ensures !HoldsAll(u, groups[i])
        {
          assert !Every(groups[i], (role: string) => HasRole(u, role));
        }
      }
      Verdict(ShowUnauthorized, false)
    else Verdict(ShowChildren, false)
  }
}
