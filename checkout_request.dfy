// src/pages/Requests/CheckoutRequest.tsx: checking an asset out against an
// approved request; the same digit-only field and day-count validation as
// CheckoutAsset.tsx, without a user to choose.

module CheckoutRequest {
  import opened Seqs
  import opened Text
  import opened Domain
  import opened CheckoutAsset

  /** validate's error dictionary: only 'dueInDays', for a refused count. */
  function RequestValidateErrors(dueInDays: string): (e: map<string, string>)
    requires AllDigits(dueInDays)
    ensures "dueInDays" in e <==> DueInDaysRejected(dueInDays)
    ensures e.Keys <= {"dueInDays"}
    ensures "dueInDays" in e ==> e["dueInDays"] == PositiveNumber
  {
    if DueInDaysRejected(dueInDays) then map["dueInDays" := PositiveNumber] else map[]
  }

  /** The two pages judge the day count alike: this page refuses it exactly
      when the asset page would, whichever user is chosen there. */
  lemma SameDayCountRule(dueInDays: string, user: Option<User>)
    requires AllDigits(dueInDays)
    ensures RequestValidateErrors(dueInDays) == map[] <==> "dueInDays" !in ValidateErrors(user, dueInDays)
  {
    if RequestValidateErrors(dueInDays) != map[] {
      assert "dueInDays" in RequestValidateErrors(dueInDays);
    }
  }

  /** The Back link, `prevPage || '/requests/' + id`: the previous page when
      there is one, else the detail page of the request being checked out. */
  function CheckoutRequestBackTarget(prevPage: Option<string>, routeId: int): (p: string)
    ensures p != ""
    ensures prevPage.Some? && prevPage.value != "" ==> p == prevPage.value
    ensures (prevPage.None? || prevPage.value == "") ==> p == RequestPath(routeId)
  {
    if prevPage.Some? && prevPage.value != "" then prevPage.value else RequestPath(routeId)
  }

  /** Where the page goes once the confirm popup closes, whether the checkout
      succeeded or not: the request's detail page. */
  function RequestDoneTarget(routeId: int): string
  {
    RequestPath(routeId)
  }

  /** Without a previous page, Back and the end of a checkout both lead to
      the request's own page, and that page names no other request. */
  lemma RequestBackWithoutHistoryIsDoneTarget(prevPage: Option<string>, routeId: int, other: int)
    requires prevPage.None? || prevPage.value == ""
    ensures CheckoutRequestBackTarget(prevPage, routeId) == RequestDoneTarget(routeId)
    ensures CheckoutRequestBackTarget(prevPage, routeId) == RequestPath(other) ==> other == routeId
  {
    PathsInjective(routeId, other);
  }

  /** The page's state: the field, the error dictionary and the confirm flag. */
  class CheckoutRequestPage {
    const routeId: int
    var dueInDays: string
    var errors: map<string, string>
    var confirmOpen: bool

    predicate Valid()
      reads this
    {
      AllDigits(dueInDays)
    }

    constructor(id: int)
      ensures Valid()
      ensures routeId == id && dueInDays == "" && errors == map[] && !confirmOpen
    {
      routeId := id;
      dueInDays := "";
      errors := map[];
      confirmOpen := false;
    }

    /** The field's onChange: every non-digit of the typed text is dropped. */
    method ChangeDueInDays(raw: string)
      modifies this
      ensures Valid()
      ensures dueInDays == KeepDigits(raw)
      ensures errors == old(errors) && confirmOpen == old(confirmOpen)
    {
      dueInDays := KeepDigits(raw);
    }

    /** handleSubmit after validate: the dictionary is replaced, and the
        confirm opens only when it is empty. */
    method HandleSubmit()
      requires Valid()
      modifies this
      ensures Valid()
      ensures errors == RequestValidateErrors(dueInDays)
      ensures confirmOpen == (errors == map[] || old(confirmOpen))
      ensures dueInDays == old(dueInDays)
    {
      var e: map<string, string> := map[];
      if dueInDays == "" || ParseNat(dueInDays) <= 0 {
        e := e["dueInDays" := PositiveNumber];
      }
      errors := e;
      if |e| > 0 {
        return;
      }
      confirmOpen := true;
    }

    /** handleConfirm: the request with the parsed count, sent only on
        confirm; the modal confirm opens only after a passing validation. */
    method HandleConfirm(confirm: bool, outcome: Outcome) returns (run: HandlerRun)
      requires Valid()
      requires confirm ==> RequestValidateErrors(dueInDays) == map[]
      ensures run == RunConfirmed(confirm, CheckOutAssetByRequest(routeId, ParseNat(dueInDays)), outcome)
      ensures confirm ==> ParseNat(dueInDays) > 0
    {
      if confirm {
        assert "dueInDays" !in RequestValidateErrors(dueInDays);
      }
      run := RunConfirmed(confirm, CheckOutAssetByRequest(routeId, ParseNat(dueInDays)), outcome);
    }
  }
}
