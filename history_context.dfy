// src/context/HistoryContext.tsx: the target of the "Back" link. Within one
// section of the site it points to the parent path; across sections it points
// to the page the user came from, and it remembers that page so that coming
// back does not bounce forward again.

module HistoryContext {
  import opened Seqs
  import opened Text

  /** `path.split('/')[1]`; None stands for `undefined` when there is no '/'. */
  function FirstSegment(path: string): Option<string>
  {
    var parts := SplitOn(path, "/");
    if |parts| > 1 then Some(parts[1]) else None
  }

  /** `path.split('/').slice(0, -1).join('/')`: the path without its last segment. */
  function Parent(path: string): string
  {
    var parts := SplitOn(path, "/");
    Join(parts[..|parts| - 1], "/")
  }

  /** Removing the last segment of q + "/" + last gives back q. */
  lemma {:induction false} ParentOf(q: string, last: string)
    requires '/' !in last
    ensures Parent(q + "/" + last) == q
  {
    SplitBeforeLast(q, '/', last);
    var parts := SplitOn(q + "/" + last, "/");
    assert parts[..|parts| - 1] == SplitOn(q, "/");
    JoinSplit(q, "/");
  }

  /** The link value and the new backFrom produced by one render. */
  datatype BackStep = BackStep(value: Option<string>, backFrom: Option<string>)

  /** One render of HistoryProvider, given the previous pathname, the
      remembered backFrom and the current pathname. */
  function Back(prev: Option<string>, backFrom: Option<string>, pathname: string): (r: BackStep)
    // no previous path (null or empty): no link, and backFrom is forgotten
    ensures r.value.None? <==> prev.None? || prev == Some("")
    ensures r.value.None? ==> r.backFrom.None?
    // backFrom is only ever the page being rendered
    ensures r.backFrom.None? || r.backFrom == Some(pathname)
    // it is remembered exactly when leaving for another section, not by going back
    ensures r.backFrom.Some? <==>
              prev.Some? && prev.value != "" && FirstSegment(pathname) != FirstSegment(prev.value)
              && backFrom != prev
    // the link is the previous page when backFrom is remembered, otherwise the parent path
    ensures r.value.Some? && r.backFrom.Some? ==> r.value == prev
    ensures r.value.Some? && r.backFrom.None? ==> r.value == Some(Parent(pathname))
  {
    if prev.None? || prev.value == "" then BackStep(None, None)
    else
      var value := prev.value;
      if FirstSegment(pathname) == FirstSegment(value) then BackStep(Some(Parent(pathname)), None)
      else if backFrom == Some(value) then BackStep(Some(Parent(pathname)), None)
      else BackStep(Some(value), Some(pathname))
  }

  /** Leaving section page `from` for page `to` of another section links back
      to `from`; following that link back then links to the parent of `from`
      instead of forward to `to`. */
  lemma {:induction false} BackAndForth(backFrom: Option<string>, from: string, to: string, fromParent: string, leaf: string)
    requires from == fromParent + "/" + leaf && '/' !in leaf
    requires FirstSegment(to) != FirstSegment(from)
    requires backFrom != Some(from) && to != ""
    ensures var there := Back(Some(from), backFrom, to);
            there == BackStep(Some(from), Some(to))
            && Back(Some(to), there.backFrom, from) == BackStep(Some(fromParent), None)
  {
    ParentOf(fromParent, leaf);
  }

  /** The provider's two refs. */
  class HistoryTracker {
    var prevLocation: Option<string>
    var backFrom: Option<string>

    constructor ()
      ensures prevLocation.None? && backFrom.None?
    {
      prevLocation := None;
      backFrom := None;
    }

    /** A render at `pathname`, followed by the location effect that records it. */
    method Render(pathname: string) returns (value: Option<string>)
      modifies this
      ensures value == Back(old(prevLocation), old(backFrom), pathname).value
      ensures backFrom == Back(old(prevLocation), old(backFrom), pathname).backFrom
      ensures prevLocation == Some(pathname)
    {
      var prev := prevLocation;
      if prev.None? || prev.value == "" {
        value := None;
        backFrom := None;
      } else {
        value := prev;
        if FirstSegment(pathname) == FirstSegment(prev.value) {
          value := Some(Parent(pathname));
          backFrom := None;
        } else if backFrom == value {
          value := Some(Parent(pathname));
          backFrom := None;
        } else {
          backFrom := Some(pathname);
        }
      }
      prevLocation := Some(pathname);
    }
  }
}
