// src/pages/Users/UserForm.tsx: the new-user form's validation, the payload
// it sends and the labels it offers. The email check comes from a library
// whose code is not part of this model, so its verdict is a parameter.

module UserForm {
  import opened Seqs
  import opened Domain
  import opened RoleUtils
  import opened AuthUtils
  import AssetForm

  const LabelRequired: string := "At least one label must be selected"
  const ComplexityMessage: string :=
    "Password must be 8 characters and including upercase, lowercase, numbers and a special character"
  const MismatchMessage: string := "Passwords don't match"
  const InvalidEmail: string := "Invalid email"

  /** The form's fields. */
  datatype FormValues = FormValues(name: string, email: string, password: string,
                                   confirmPassword: string, labels: seq<Label>)

  /** handleSubmit's error dictionary, built key by key: 'label' without
      labels, 'password' for a password the complexity check refuses,
      'confirm_password' when the two passwords differ, 'email' for an
      address the validator refuses. */
  function SubmitErrors(f: FormValues, emailValid: bool): (e: map<string, string>)
    ensures "label" in e <==> f.labels == []
    ensures "password" in e <==> !VerifyPasswordComplexity(f.password)
    ensures "confirm_password" in e <==> f.password != f.confirmPassword
    ensures "email" in e <==> !emailValid
    ensures e.Keys <= {"label", "password", "confirm_password", "email"}
    ensures "label" in e ==> e["label"] == LabelRequired
    ensures "password" in e ==> e["password"] == ComplexityMessage
    ensures "confirm_password" in e ==> e["confirm_password"] == MismatchMessage
    ensures "email" in e ==> e["email"] == InvalidEmail
  {
    var e0: map<string, string> := if f.labels == [] then map["label" := LabelRequired] else map[];
    var e1 := if !VerifyPasswordComplexity(f.password) then e0["password" := ComplexityMessage] else e0;
    var e2 := if f.password != f.confirmPassword then e1["confirm_password" := MismatchMessage] else e1;
    if !emailValid then e2["email" := InvalidEmail] else e2
  }

  /** The dictionary is empty exactly when every check passes, and then the
      password meets every complexity requirement. */
  lemma NoErrorsMeansValid(f: FormValues, emailValid: bool)
    ensures SubmitErrors(f, emailValid) == map[] <==>
      f.labels != [] && VerifyPasswordComplexity(f.password) && f.password == f.confirmPassword && emailValid
    ensures SubmitErrors(f, emailValid) == map[] ==>
      Utf16Length(f.confirmPassword) >= 8 && HasClass(f.confirmPassword, Digit) && HasClass(f.confirmPassword, Special)
  {
    var e := SubmitErrors(f, emailValid);
    if e != map[] {
      var k :| k in e;
    }
  }

  /** The create request: the typed fields and the selected labels' names. */
  function CreateCall(f: FormValues): (c: Call)
    ensures c.CreateUser? && c.userName == f.name && c.email == f.email && c.password == f.password
    ensures |c.labelNames| == |f.labels|
    ensures forall i :: 0 <= i < |f.labels| ==> c.labelNames[i] == f.labels[i].name
  {
    CreateUser(f.name, f.email, f.password, LabelNames(f.labels))
  }

  /** The labels the Autocomplete offers: every label with CreateEditUser on
      '*', otherwise the labels the user's CreateEditUser scopes name. */
  function Options(u: User, all: seq<Label>): (options: seq<Label>)
    ensures Grants(u, CreateEditUser, Wildcard) ==> options == all
    ensures !Grants(u, CreateEditUser, Wildcard) ==>
      forall k :: 0 <= k < |options| ==> options[k] in all && Grants(u, CreateEditUser, options[k].name)
    ensures !Grants(u, CreateEditUser, Wildcard) ==>
      forall j :: 0 <= j < |u.roles| && u.roles[j].role == CreateEditUser && u.roles[j].scope in LabelNames(all)
        ==> u.roles[j].scope in LabelNames(options)
  {
    AssetForm.LabelOptions(u, CreateEditUser, all)
  }

  /** The page's state: the form, the error dictionary, the confirm flag, the
      pending flag and the created user's id. */
  class UserFormPage {
    var form: FormValues
    var errors: map<string, string>
    var confirmOpen: bool
    var pending: bool
    var createdId: Option<int>

    constructor()
      ensures form == FormValues("", "", "", "", [])
      ensures errors == map[] && !confirmOpen && !pending && createdId.None?
    {
      form := FormValues("", "", "", "", []);
      errors := map[];
      confirmOpen := false;
      pending := false;
      createdId := None;
    }

    /** updateForm, and the password inputs' own handler: the input named by
        the event takes the typed value. A name that is no field of the form
        leaves every field as it was. */
    method UpdateForm(name: string, value: string)
      modifies this
      ensures name == "name" ==> form == old(form).(name := value)
      ensures name == "email" ==> form == old(form).(email := value)
      ensures name == "password" ==> form == old(form).(password := value)
      ensures name == "confirm_password" ==> form == old(form).(confirmPassword := value)
      ensures name !in {"name", "email", "password", "confirm_password"} ==> form == old(form)
      ensures errors == old(errors) && confirmOpen == old(confirmOpen)
      ensures pending == old(pending) && createdId == old(createdId)
    {
      if name == "name" {
        form := form.(name := value);
      } else if name == "email" {
        form := form.(email := value);
      } else if name == "password" {
        form := form.(password := value);
      } else if name == "confirm_password" {
        form := form.(confirmPassword := value);
      }
    }

    /** handleLabelChange: the selection replaces the labels. */
    method HandleLabelChange(value: seq<Label>)
      modifies this
      ensures form == old(form).(labels := value)
      ensures errors == old(errors) && confirmOpen == old(confirmOpen)
      ensures pending == old(pending) && createdId == old(createdId)
    {
      form := form.(labels := value);
    }

    /** handleSubmit: the dictionary is replaced, and the confirm opens only
        when it is empty. */
    method HandleSubmit(emailValid: bool)
      modifies this
      ensures errors == SubmitErrors(form, emailValid)
      ensures confirmOpen == (errors == map[] || old(confirmOpen))
      ensures form == old(form) && pending == old(pending) && createdId == old(createdId)
    {
      var e: map<string, string> := map[];
      if |form.labels| == 0 {
        e := e["label" := LabelRequired];
      }
      ghost var e0 := e;
      if !VerifyPasswordComplexity(form.password) {
        e := e["password" := ComplexityMessage];
      }
      ghost var e1 := e;
      if form.password != form.confirmPassword {
        e := e["confirm_password" := MismatchMessage];
      }
      ghost var e2 := e;
      if !emailValid {
        e := e["email" := InvalidEmail];
      }
      assert e == if !emailValid then e2["email" := InvalidEmail] else e2;
      assert e2 == if form.password != form.confirmPassword then e1["confirm_password" := MismatchMessage] else e1;
      assert e1 == if !VerifyPasswordComplexity(form.password) then e0["password" := ComplexityMessage] else e0;
      assert e0 == if form.labels == [] then map["label" := LabelRequired] else map[];
      errors := e;
      if |e| > 0 {
        return;
      }
      confirmOpen := true;
    }

    /** handleConfirmClose: the create request, then the new id on success or
        the thrown message under 'general' on failure. */
    method HandleConfirmClose(confirm: bool, outcome: Outcome, resultId: int, thrown: string)
      returns (run: HandlerRun)
      modifies this
      ensures run == RunConfirmed(confirm, CreateCall(form), outcome)
      ensures !confirm ==> pending == old(pending) && createdId == old(createdId) && errors == old(errors)
      ensures confirm ==> !pending
      ensures confirm && outcome == Succeeded ==> createdId == Some(resultId) && errors == old(errors)
      ensures confirm && outcome == Threw ==> errors == map["general" := thrown] && createdId == old(createdId)
      ensures form == old(form) && confirmOpen == old(confirmOpen)
    {
      if !confirm {
        return HandlerRun(None, true);
      }
      pending := true;
      var call := CreateCall(form);
      if outcome == Succeeded {
        createdId := Some(resultId);
        pending := false;
        return HandlerRun(Some(call), true);
      }
      pending := false;
      errors := map["general" := thrown];
      return HandlerRun(Some(call), false);
    }
  }
}
