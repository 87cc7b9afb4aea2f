// src/components/AssetRow.tsx: the status chip colour, the next-maintenance
// date and its chip, and the row's link. AssetDetail shows the same two chips.

module AssetRow {
  import opened Seqs
  import opened Domain
  import opened DateUtils

  /** `statusColors[asset.status]`. */
  function StatusColour(s: AssetStatus): (c: Colour)
    ensures c == Success <==> s == Available
    ensures c == Primary <==> s == InUse
    ensures c == Warning <==> s == Maintenance
    ensures c == Secondary <==> s == Reserved
  {
    match s
    case Available => Success
    case InUse => Primary
    case Maintenance => Warning
    case Reserved => Secondary
  }

  /** `asset.last_maintenance || asset.purchase_date`: an empty last
      maintenance falls back to the purchase date. */
  function MaintenanceBase(a: Asset): int
  {
    match a.lastMaintenance
    case Some(t) => t
    case None => a.purchaseDate
  }

  /** The base date plus maintenance_rate whole days. */
  function NextMaintenance(a: Asset): (t: int)
    ensures StartOfDay(t) == StartOfDay(MaintenanceBase(a)) + a.maintenanceRate * MsPerDay
    ensures t - StartOfDay(t) == MaintenanceBase(a) - StartOfDay(MaintenanceBase(a))
  {
    AddDays(MaintenanceBase(a), a.maintenanceRate)
  }

  /** The maintenance chip colour for a day count: overdue or due today is
      error, up to forty days warning, later info. */
  function MaintenanceColour(days: int): (c: Colour)
    ensures c == Error <==> days <= 0
    ensures c == Warning <==> 0 < days <= 40
    ensures c == Info <==> days > 40
  {
    if days <= 0 then Error
    else if days <= 40 then Warning
    else Info
  }

  datatype Chip = Chip(message: string, colour: Colour)

  /** The next-maintenance chip at instant now: the due message of the next
      maintenance date, coloured by calendar days from today. */
  function MaintenanceChip(a: Asset, now: int): (chip: Chip)
    ensures chip.message == DueMessage((StartOfDay(NextMaintenance(a)) - StartOfDay(now)) / MsPerDay)
    ensures chip.colour == Error <==> StartOfDay(NextMaintenance(a)) <= StartOfDay(now)
    ensures chip.colour == Warning <==>
              StartOfDay(now) < StartOfDay(NextMaintenance(a)) <= StartOfDay(now) + 40 * MsPerDay
    ensures chip.colour == Info <==> StartOfDay(now) + 40 * MsPerDay < StartOfDay(NextMaintenance(a))
    ensures chip.colour == MaintenanceColour((StartOfDay(NextMaintenance(a)) - StartOfDay(now)) / MsPerDay)
  {
    var info := GetDueDateInfo(NextMaintenance(a), now);
    var due, today := StartOfDay(NextMaintenance(a)), StartOfDay(now);
    assert info.days == (due - today) / MsPerDay;
    assert info.days <= 40 <==> due <= today + 40 * MsPerDay;
    Chip(info.message, MaintenanceColour(info.days))
  }

  /** The chip's colour agrees with its text: reading the message back gives
      a day count, and the chip is red exactly when that count is not positive. */
  lemma ChipAgreesWithMessage(a: Asset, now: int)
    ensures ParseDueMessage(MaintenanceChip(a, now).message).Some?
    ensures MaintenanceChip(a, now).colour == Error <==> ParseDueMessage(MaintenanceChip(a, now).message).value <= 0
  {
    var info := GetDueDateInfo(NextMaintenance(a), now);
    DueMessageRoundTrip(info.days);
  }

  /** Clicking a row navigates to the asset's detail page. */
  function RowTarget(a: Asset): string
  {
    AssetPath(a.id)
  }

  /** Rows of different assets lead to different pages. */
  lemma RowTargetsDistinct(a: Asset, b: Asset)
    requires a.id != b.id
    ensures RowTarget(a) != RowTarget(b)
  {
    PathsInjective(a.id, b.id);
  }
}
