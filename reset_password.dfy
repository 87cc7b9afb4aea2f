// src/pages/ResetPassword.tsx: the signed-in user's own password reset, its
// validation and its confirm handler. Logging out and back in afterwards
// goes through the session code, which is not part of this model.

module ResetPassword {
  import opened Seqs
  import opened Domain
  import opened AuthUtils

  const ComplexityMessage: string :=
    "Password must be 8 characters and including upercase, lowercase, numbers and a special character"
  const MismatchMessage: string := "Passwords don't match"

  /** handleSubmit's error dictionary: 'password' for a password the
      complexity check refuses, 'confirm_password' when the confirmation
      differs, nothing else. */
  function ResetErrors(password: string, confirmPassword: string): (e: map<string, string>)
    ensures "password" in e <==> !VerifyPasswordComplexity(password)
    ensures "confirm_password" in e <==> password != confirmPassword
    ensures e.Keys <= {"password", "confirm_password"}
    ensures "password" in e ==> e["password"] == ComplexityMessage
    ensures "confirm_password" in e ==> e["confirm_password"] == MismatchMessage
  {
    var e0: map<string, string> := if !VerifyPasswordComplexity(password) then map["password" := ComplexityMessage] else map[];
    if password != confirmPassword then e0["confirm_password" := MismatchMessage] else e0
  }

  /** A submission goes through exactly when the password passes the
      complexity check and the confirmation matches it; a password shorter
      than eight UTF-16 code units never does. */
  lemma ResetAcceptedIff(password: string, confirmPassword: string)
    ensures ResetErrors(password, confirmPassword) == map[] <==>
      VerifyPasswordComplexity(password) && password == confirmPassword
    ensures Utf16Length(password) < 8 ==> ResetErrors(password, confirmPassword) != map[]
  {
    var e := ResetErrors(password, confirmPassword);
    if e != map[] {
      var k :| k in e;
    }
  }

  /** The page's state: both fields, the error dictionary and the confirm flag. */
  class ResetPasswordPage {
    var password: string
    var confirmPassword: string
    var errors: map<string, string>
    var confirmOpen: bool

    constructor()
      ensures password == "" && confirmPassword == "" && errors == map[] && !confirmOpen
    {
      password := "";
      confirmPassword := "";
      errors := map[];
      confirmOpen := false;
    }

    /** handleSubmit: the dictionary is replaced, and the confirm opens only
        when it is empty. */
    method HandleSubmit()
      modifies this
      ensures errors == ResetErrors(password, confirmPassword)
      ensures confirmOpen == (errors == map[] || old(confirmOpen))
      ensures password == old(password) && confirmPassword == old(confirmPassword)
    {
      var e: map<string, string> := map[];
      if !VerifyPasswordComplexity(password) {
        e := e["password" := ComplexityMessage];
      }
      if password != confirmPassword {
        e := e["confirm_password" := MismatchMessage];
      }
      errors := e;
      if |e| > 0 {
        return;
      }
      confirmOpen := true;
    }

    /** handleConfirmClose: a cancel returns true without a request; otherwise
        the typed password is sent, and a failure stores the thrown message
        under 'general' and returns false. */
    method HandleConfirmClose(confirm: bool, outcome: Outcome, thrown: string) returns (run: HandlerRun)
      modifies this
      ensures run == RunConfirmed(confirm, ResetPasswordSelf(password), outcome)
      ensures confirm && outcome == Threw ==> errors == map["general" := thrown]
      ensures !(confirm && outcome == Threw) ==> errors == old(errors)
      ensures password == old(password) && confirmPassword == old(confirmPassword)
      ensures confirmOpen == old(confirmOpen)
    {
      if !confirm {
        return HandlerRun(None, true);
      }
      if outcome == Succeeded {
        return HandlerRun(Some(ResetPasswordSelf(password)), true);
      }
      errors := map["general" := thrown];
      return HandlerRun(Some(ResetPasswordSelf(password)), false);
    }
  }
}
