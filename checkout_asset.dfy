// src/pages/Assets/CheckoutAsset.tsx: the digit-only due-in-days field, the
// validation of the chosen user and the day count, and the check-out request.

module CheckoutAsset {
  import opened Seqs
  import opened Text
  import opened Domain

  const UserRequired: string := "User is required"
  const PositiveNumber: string := "Enter a positive number"

  /** `!dueInDays || isNaN(parseInt(dueInDays)) || parseInt(dueInDays) <= 0`
      for the digit strings the field can hold: empty parses as NaN, and
      otherwise parseInt reads the whole string. */
  predicate DueInDaysRejected(d: string)
    requires AllDigits(d)
  {
    d == "" || ParseNat(d) <= 0
  }

  /** A digit string parses as zero exactly when every digit is '0'. */
  lemma {:induction false} ParseNatZero(d: string)
    requires AllDigits(d)
    ensures ParseNat(d) == 0 <==> forall i :: 0 <= i < |d| ==> d[i] == '0'
    decreases |d|
  {
    if d != [] {
      var init := d[..|d| - 1];
      ParseNatZero(init);
      assert forall i :: 0 <= i < |init| ==> init[i] == d[i];
    }
  }

  /** So the day count is refused exactly when it is empty or all zeros:
      "0" and "00" are refused, "007" is accepted. */
  lemma DueInDaysRejectedIff(d: string)
    requires AllDigits(d)
    ensures DueInDaysRejected(d) <==> forall i :: 0 <= i < |d| ==> d[i] == '0'
  {
    ParseNatZero(d);
  }

  /** validate's error dictionary: 'user' without a chosen user, 'dueInDays'
      for a refused day count. */
  function ValidateErrors(user: Option<User>, dueInDays: string): (e: map<string, string>)
    requires AllDigits(dueInDays)
    ensures "user" in e <==> user.None?
    ensures "dueInDays" in e <==> DueInDaysRejected(dueInDays)
    ensures e.Keys <= {"user", "dueInDays"}
    ensures "user" in e ==> e["user"] == UserRequired
    ensures "dueInDays" in e ==> e["dueInDays"] == PositiveNumber
  {
    var e0: map<string, string> := if user.None? then map["user" := UserRequired] else map[];
    if DueInDaysRejected(dueInDays) then e0["dueInDays" := PositiveNumber] else e0
  }

  /** The check-out request: the route's asset, the chosen user and the
      parsed day count. */
  function CheckoutCall(routeId: int, user: User, dueInDays: string): (c: Call)
    requires AllDigits(dueInDays)
    ensures c.CheckOutAsset? && c.assetId == routeId && c.userId == user.id
    ensures c.dueInDays == ParseNat(dueInDays)
  {
    CheckOutAsset(routeId, user.id, ParseNat(dueInDays))
  }

  /** A request sent after a passing validation asks for a positive number
      of days. */
  lemma ValidatedCallPositive(routeId: int, user: Option<User>, dueInDays: string)
    requires AllDigits(dueInDays) && ValidateErrors(user, dueInDays) == map[]
    ensures user.Some? && CheckoutCall(routeId, user.value, dueInDays).dueInDays > 0
  {
    var e := ValidateErrors(user, dueInDays);
    assert "user" !in e && "dueInDays" !in e;
  }

  /** The Back link, `prevPage || '/assets/' + id`: the previous page when
      there is one, else the detail page of the asset being checked out. */
  function CheckoutBackTarget(prevPage: Option<string>, routeId: int): (p: string)
    ensures p != ""
    ensures prevPage.Some? && prevPage.value != "" ==> p == prevPage.value
    ensures (prevPage.None? || prevPage.value == "") ==> p == AssetPath(routeId)
  {
    if prevPage.Some? && prevPage.value != "" then prevPage.value else AssetPath(routeId)
  }

  /** Where the page goes once the confirm popup closes, whether the checkout
      succeeded or not: the asset's detail page. */
  function CheckoutDoneTarget(routeId: int): string
  {
    AssetPath(routeId)
  }

  /** Without a previous page, Back and the end of a checkout both lead to
      the asset's own page, and that page names no other asset. */
  lemma BackWithoutHistoryIsDoneTarget(prevPage: Option<string>, routeId: int, other: int)
    requires prevPage.None? || prevPage.value == ""
    ensures CheckoutBackTarget(prevPage, routeId) == CheckoutDoneTarget(routeId)
    ensures CheckoutBackTarget(prevPage, routeId) == AssetPath(other) ==> other == routeId
  {
    PathsInjective(routeId, other);
  }

  /** The page's state: the chosen user, the field, the error dictionary and
      the confirm flag. The field only ever holds digits. */
  class CheckoutAssetPage {
    const routeId: int
    var user: Option<User>
    var dueInDays: string
    var errors: map<string, string>
    var confirmOpen: bool

    predicate Valid()
      reads this
    {
      AllDigits(dueInDays)
    }

    constructor(id: int)
      ensures Valid()
      ensures routeId == id && user.None? && dueInDays == "" && errors == map[] && !confirmOpen
    {
      routeId := id;
      user := None;
      dueInDays := "";
      errors := map[];
      confirmOpen := false;
    }

    /** The field's onChange: every non-digit of the typed text is dropped. */
    method ChangeDueInDays(raw: string)
      modifies this
      ensures Valid()
      ensures dueInDays == KeepDigits(raw)
      ensures user == old(user) && errors == old(errors) && confirmOpen == old(confirmOpen)
    {
      dueInDays := KeepDigits(raw);
    }

    /** handleLabelChange: the Autocomplete's choice, or none. */
    method ChangeUser(value: Option<User>)
      modifies this
      ensures user == value
      ensures dueInDays == old(dueInDays) && errors == old(errors) && confirmOpen == old(confirmOpen)
    {
      user := value;
    }

    /** validate: the dictionary is replaced; true exactly when it is empty. */
    method Validate() returns (ok: bool)
      requires Valid()
      modifies this
      ensures Valid()
      ensures errors == ValidateErrors(user, dueInDays)
      ensures ok <==> errors == map[]
      ensures user == old(user) && dueInDays == old(dueInDays) && confirmOpen == old(confirmOpen)
    {
      var e: map<string, string> := map[];
      if user.None? {
        e := e["user" := UserRequired];
      }
      if dueInDays == "" || ParseNat(dueInDays) <= 0 {
        e := e["dueInDays" := PositiveNumber];
      }
      errors := e;
      ok := |e| == 0;
    }

    /** handleSubmit: the confirm opens only when validation passes. */
    method HandleSubmit()
      requires Valid()
      modifies this
      ensures Valid()
      ensures errors == ValidateErrors(user, dueInDays)
      ensures confirmOpen == (errors == map[] || old(confirmOpen))
      ensures user == old(user) && dueInDays == old(dueInDays)
    {
      var ok := Validate();
      if !ok {
        return;
      }
      confirmOpen := true;
    }

    /** handleConfirm. The modal confirm opens only after a passing
        validation, so a confirmed run has a user and a positive count. */
    method HandleConfirm(confirm: bool, outcome: Outcome) returns (run: HandlerRun)
      requires Valid()
      requires confirm ==> ValidateErrors(user, dueInDays) == map[]
      ensures confirm ==> user.Some? && run == RunConfirmed(confirm, CheckoutCall(routeId, user.value, dueInDays), outcome)
      ensures !confirm ==> run == HandlerRun(None, true)
    {
      if !confirm {
        return HandlerRun(None, true);
      }
      ValidatedCallPositive(routeId, user, dueInDays);
      var call := CheckoutCall(routeId, user.value, dueInDays);
      run := HandlerRun(Some(call), outcome == Succeeded);
    }
  }
}
