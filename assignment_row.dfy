// src/components/AssignmentRow.tsx: the due-date chip of one assignment and
// the row's link. AssignmentDetail shows the same chip.

module AssignmentRow {
  import opened Seqs
  import opened Domain
  import opened DateUtils
  import opened AssetRow

  /** The due chip's colour: a returned assignment is success whatever its
      day count; otherwise overdue or due today is error, up to seven days
      warning, later info. */
  function DueColour(returnedAt: Option<int>, days: int): (c: Colour)
    ensures returnedAt.Some? ==> c == Success
    ensures returnedAt.None? ==> (c == Error <==> days <= 0)
    ensures returnedAt.None? ==> (c == Warning <==> 0 < days <= 7)
    ensures returnedAt.None? ==> (c == Info <==> days > 7)
  {
    if returnedAt.None? then
      if days <= 0 then Error
      else if days <= 7 then Warning
      else Info
    else Success
  }

  /** The chip at instant now: getDueDateInfo's message for the due date,
      coloured by the day count it returned. */
  function DueChip(x: Assignment, now: int): (chip: Chip)
    ensures chip.message == DueMessage((StartOfDay(x.dueDate) - StartOfDay(now)) / MsPerDay)
    ensures x.returnedAt.Some? ==> chip.colour == Success
    ensures x.returnedAt.None? ==> (chip.colour == Error <==> StartOfDay(x.dueDate) <= StartOfDay(now))
    ensures x.returnedAt.None? ==>
      (chip.colour == Info <==> StartOfDay(now) + 7 * MsPerDay < StartOfDay(x.dueDate))
    ensures x.returnedAt.None? ==>
      (chip.colour == Warning <==> StartOfDay(now) < StartOfDay(x.dueDate) <= StartOfDay(now) + 7 * MsPerDay)
    ensures chip.colour == DueColour(x.returnedAt, (StartOfDay(x.dueDate) - StartOfDay(now)) / MsPerDay)
  {
    var info := GetDueDateInfo(x.dueDate, now);
    var due, today := StartOfDay(x.dueDate), StartOfDay(now);
    assert info.days == (due - today) / MsPerDay;
    assert info.days <= 7 <==> due <= today + 7 * MsPerDay;
    Chip(info.message, DueColour(x.returnedAt, info.days))
  }

  /** For an assignment still out, the chip is red exactly when its own text
      says the due day is today or past, and never red once it is returned. */
  lemma DueChipAgreesWithMessage(x: Assignment, now: int)
    ensures ParseDueMessage(DueChip(x, now).message).Some?
    ensures x.returnedAt.None? ==>
      (DueChip(x, now).colour == Error <==> ParseDueMessage(DueChip(x, now).message).value <= 0)
    ensures x.returnedAt.Some? ==> DueChip(x, now).colour != Error
  {
    DueMessageRoundTrip(GetDueDateInfo(x.dueDate, now).days);
  }

  /** The returned-at cell: the return instant when the assignment came
      back, empty while it is out. */
  function ReturnedCell(x: Assignment): (cell: Option<int>)
    ensures cell.None? <==> x.returnedAt.None?
    ensures cell.Some? ==> cell.value == x.returnedAt.value
  {
    x.returnedAt
  }

  /** The row shows a return date exactly when its chip is green. */
  lemma ReturnedCellIffSuccess(x: Assignment, now: int)
    ensures ReturnedCell(x).Some? <==> DueChip(x, now).colour == Success
  {
    var info := GetDueDateInfo(x.dueDate, now);
    assert DueChip(x, now).colour == DueColour(x.returnedAt, info.days);
  }

  /** Clicking a row navigates to the assignment's detail page. */
  function AssignmentRowTarget(x: Assignment): string
  {
    AssignmentPath(x.id)
  }

  /** Rows of different assignments lead to different pages. */
  lemma AssignmentRowTargetsDistinct(x: Assignment, y: Assignment)
    requires x.id != y.id
    ensures AssignmentRowTarget(x) != AssignmentRowTarget(y)
  {
    PathsInjective(x.id, y.id);
  }
}
