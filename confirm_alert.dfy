// src/components/ConfirmAlert.tsx: a confirm dialog followed by a result
// popup. openWindow is 0 (nothing shown), 1 (the confirm dialog) or 2 (the
// result popup). The callbacks the parent passes in are recorded as counts
// and a log of their arguments.

module ConfirmAlert {

  datatype Status = Success | Failure

  /** How the promise returned by onClose settled. */
  datatype Settled = Resolved(value: bool) | Rejected

  class ConfirmAlert {
    var status: Status
    var openWindow: int
    /** How many times closePopup has been called. */
    var closePopupCalls: nat
    /** The arguments of every onComplete call, oldest first. */
    var completions: seq<bool>

    ghost predicate Valid()
      reads this
    {
      0 <= openWindow <= 2
    }

    constructor ()
      ensures Valid()
      ensures status == Success && openWindow == 0
      ensures closePopupCalls == 0 && completions == []
    {
      status := Success;
      openWindow := 0;
      closePopupCalls := 0;
      completions := [];
    }

    /** The confirm dialog is open exactly in window state 1. */
    function ConfirmOpen(): (b: bool)
      reads this
      requires Valid()
      ensures b ==> !PopupOpen()
    {
      openWindow == 1
    }

    /** The result popup is open exactly in window state 2. */
    function PopupOpen(): bool
      reads this
      requires Valid()
    {
      openWindow == 2
    }

    /** The popup text: the success message exactly when the status is success. */
    function PopupMessage(onSuccess: string, onFailure: string): (m: string)
      reads this
      ensures status == Success ==> m == onSuccess
      ensures status == Failure ==> m == onFailure
    {
      if status == Success then onSuccess else onFailure
    }

    /** The effect on [open, openWindow]: a request to open starts the confirm
        dialog when nothing is showing. */
    method OnOpenChange(open: bool)
      requires Valid()
      modifies this
      ensures Valid()
      ensures open && old(openWindow) == 0 ==> openWindow == 1
      ensures !(open && old(openWindow) == 0) ==> openWindow == old(openWindow)
      ensures status == old(status) && closePopupCalls == old(closePopupCalls)
      ensures completions == old(completions)
    {
      if open && openWindow == 0 {
        openWindow := 1;
      }
    }

    /** handleConfirmClose, once onClose has settled: the status records
        whether it resolved true; a confirmed action goes on to the popup, a
        cancelled one closes everything. */
    method HandleConfirmClose(confirm: bool, settled: Settled)
      requires Valid()
      modifies this
      ensures Valid()
      ensures status == (if settled == Resolved(true) then Success else Failure)
      ensures confirm ==> openWindow == 2 && closePopupCalls == old(closePopupCalls)
      ensures !confirm ==> openWindow == 0 && closePopupCalls == old(closePopupCalls) + 1
      ensures completions == old(completions)
    {
      match settled {
        case Resolved(ok) => status := if ok then Success else Failure;
        case Rejected => status := Failure;
      }
      if confirm {
        openWindow := 2;
      } else {
        openWindow := 0;
        closePopupCalls := closePopupCalls + 1;
      }
    }

    /** handleAlertClose: close the popup and report whether the action succeeded. */
    method HandleAlertClose()
      requires Valid()
      modifies this
      ensures Valid()
      ensures openWindow == 0 && closePopupCalls == old(closePopupCalls) + 1
      ensures completions == old(completions) + [old(status) == Success]
      ensures status == old(status)
    {
      openWindow := 0;
      closePopupCalls := closePopupCalls + 1;
      completions := completions + [status == Success];
    }
  }
}
