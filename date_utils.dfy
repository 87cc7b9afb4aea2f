// src/utils/date_utils.ts: the "due in N days" message and the calendar-day
// shift. Instants are integer milliseconds in local wall-clock time, so local
// midnight is a multiple of the day length.

module DateUtils {
  import opened Seqs
  import opened Text

  const MsPerDay: int := 86400000

  /** `date.setHours(0, 0, 0, 0)`: local midnight of the day containing ms. */
  function StartOfDay(ms: int): (m: int)
    ensures m <= ms < m + MsPerDay
    ensures m % MsPerDay == 0
  {
    (ms / MsPerDay) * MsPerDay
  }

  /** Shifting by whole days moves midnight by the same amount and keeps the time of day. */
  lemma StartOfDayShift(ms: int, days: int)
    ensures StartOfDay(ms + days * MsPerDay) == StartOfDay(ms) + days * MsPerDay
  {
    var m := StartOfDay(ms);
    var k := ms / MsPerDay;
    assert ms == k * MsPerDay + (ms - m);
    assert ms + days * MsPerDay == (k + days) * MsPerDay + (ms - m);
    assert (ms + days * MsPerDay) / MsPerDay == k + days;
  }

  datatype DueInfo = DueInfo(message: string, days: int)

  /** The plural ending of "day": none for exactly one, else 's'. */
  function Plural(n: nat): (r: string)
    ensures r == "" <==> n == 1
    ensures r == "s" <==> n != 1
  {
    if n == 1 then "" else "s"
  }

  /** The message for a whole-day difference. */
  function DueMessage(days: int): string
  {
    if days > 0 then "due in " + NatToString(days) + " day" + Plural(days)
    else if days < 0 then "due " + NatToString(-days) + " day" + Plural(-days) + " ago"
    else "due today"
  }

  /** getDueDateInfo: the number of midnights from today to the due day
      (positive in the future) and the message derived from that same number. */
  function GetDueDateInfo(due: int, now: int): (info: DueInfo)
    ensures info.days * MsPerDay == StartOfDay(due) - StartOfDay(now)
    ensures info.days > 0 <==> StartOfDay(now) < StartOfDay(due)
    ensures info.days == 0 <==> info.message == "due today"
    ensures info.message == DueMessage(info.days)
  {
    var days := due / MsPerDay - now / MsPerDay;
    assert days * MsPerDay == (due / MsPerDay) * MsPerDay - (now / MsPerDay) * MsPerDay;
    var message := DueMessage(days);
    assert days != 0 ==> message[4] != 't';
    DueInfo(message, days)
  }

  /** A day count written as digits, then " day", or " days" unless the count
      is 1, then the suffix. */
  function ParseCount(rest: string, suffix: string): (n: Option<nat>)
    ensures n.Some? ==> n.value > 0
  {
    var d := TakeDigits(rest);
    var tail := rest[|d|..];
    if d == [] || d[0] == '0' then None
    else
      var n := ParseNat(d);
      if n == 0 then None
      else if (n == 1 && tail == " day" + suffix) || (n != 1 && tail == " days" + suffix) then Some(n)
      else None
  }

  /** Reads a due message back into its day count. */
  function ParseDueMessage(m: string): Option<int>
  {
    if m == "due today" then Some(0)
    else if StartsWith(m, "due in ") then
      match ParseCount(m[7..], "")
      case Some(n) => Some(n)
      case None => None
    else if StartsWith(m, "due ") then
      match ParseCount(m[4..], " ago")
      case Some(n) => Some(-(n as int))
      case None => None
    else None
  }

  lemma ParseCountOf(n: nat, suffix: string)
    requires n > 0
    ensures ParseCount(NatToString(n) + " day" + Plural(n) + suffix, suffix) == Some(n)
  {
    var digits := NatToString(n);
    var tail := " day" + Plural(n) + suffix;
    var rest := digits + tail;
    assert rest == NatToString(n) + " day" + Plural(n) + suffix;
    TakeDigitsOf(digits, tail);
    assert rest[|digits|..] == tail;
    ParseNatToString(n);
    assert digits[0] != '0';
    if n == 1 {
      assert tail == " day" + suffix;
    } else {
      assert Plural(n) == "s";
      assert " day" + "s" == " days";
      assert tail == " days" + suffix;
    }
  }

  /** The message determines the day count: reading it back gives the days
      field, so "due today" is exactly the zero case, and "day" is singular
      exactly when the count is 1 or -1. */
  lemma DueMessageRoundTrip(days: int)
    ensures ParseDueMessage(DueMessage(days)) == Some(days)
  {
    if days > 0 {
      DueInRoundTrip(days);
    } else if days < 0 {
      DueAgoRoundTrip(days);
    }
  }

  lemma DueInRoundTrip(days: int)
    requires days > 0
    ensures ParseDueMessage(DueMessage(days)) == Some(days)
  {
    var m := DueMessage(days);
    var rest := NatToString(days) + " day" + Plural(days);
    assert m == "due in " + rest;
    assert m[7..] == rest;
    assert m != "due today" by { assert m[4] == 'i'; }
    ParseCountOf(days, "");
    assert rest + "" == rest;
  }

  lemma DueAgoRoundTrip(days: int)
    requires days < 0
    ensures ParseDueMessage(DueMessage(days)) == Some(days)
  {
    var n: nat := -days;
    var rest := NatToString(n) + " day" + Plural(n) + " ago";
    AgoMessage(days, n, rest);
    ParseCountOf(n, " ago");
    LeadingDigit(n, " day" + Plural(n) + " ago");
    ReadAgo(rest, n);
  }

  /** The past-branch message is "due " followed by the count part. */
  lemma AgoMessage(days: int, n: nat, rest: string)
    requires days < 0 && n == -days && rest == NatToString(n) + " day" + Plural(n) + " ago"
    ensures DueMessage(days) == "due " + rest
  {
  }

  /** A printed count followed by anything starts with a digit. */
  lemma LeadingDigit(n: nat, tail: string)
    ensures var s := NatToString(n) + tail; s != [] && IsDigit(s[0])
  {
    assert (NatToString(n) + tail)[0] == NatToString(n)[0];
  }

  /** A message "due " followed by a count that starts with a digit reads
      back as that many days ago. */
  lemma ReadAgo(rest: string, n: nat)
    requires rest != [] && IsDigit(rest[0])
    requires ParseCount(rest, " ago") == Some(n)
    ensures ParseDueMessage("due " + rest) == Some(-(n as int))
  {
    var m := "due " + rest;
    assert m[4] == rest[0];
    assert m != "due today";
    assert !StartsWith(m, "due in ");
    assert StartsWith(m, "due ");
    assert m[4..] == rest;
  }

  /** addDays: the same time of day, `days` calendar days later (earlier when negative). */
  function AddDays(ms: int, days: int): (r: int)
    ensures StartOfDay(r) == StartOfDay(ms) + days * MsPerDay
    ensures r - StartOfDay(r) == ms - StartOfDay(ms)
  {
    StartOfDayShift(ms, days);
    ms + days * MsPerDay
  }
}
