/** The calendar event record and its derived views: duration, date, month,
    weekday and time-of-day band. All of them read the raw `DTSTART`/`DTEND`
    texts, which keep their parameters (`DTSTART;TZID=...:20240115T090000`). */
module Events {
  import opened Wrappers
  import opened Text
  import opened Scan
  import opened Clock

  /** One `ATTENDEE` entry. Scripts differ in what they record: the name is
      absent where only address and status are kept, the status is absent
      where only address and name are kept. */
  datatype Attendee = Attendee(email: string, name: Option<string>, status: Option<string>)

  /** The union of the fields any of the scripts' event classes carries;
      a script that does not record a field leaves it at its initial value. */
  datatype Event = Event(
    summary: string,
    dtstart: string,
    dtend: string,
    description: string,
    location: string,
    organizer: string,
    organizerName: string,
    attendees: seq<Attendee>,
    categories: seq<string>,
    status: string,
    busyStatus: string,
    transp: string,
    created: string,
    uid: string,
    isRecurring: bool,
    recurrenceId: string)

  /** A freshly constructed event: every text empty, no attendees, no tags. */
  const Blank := Event("", "", "", "", "", "", "", [], [], "", "", "", "", "", false, "")

  /** The date-time a `\d{8}T\d{6}` match at `i` spells. */
  function ReadStamp(s: string, i: nat): Stamp
    requires StampAt(s, i)
  {
    Stamp(Date(Number(s, i, 4), Number(s, i + 4, 2), Number(s, i + 6, 2)),
          Number(s, i + 9, 2), Number(s, i + 11, 2), Number(s, i + 13, 2))
  }

  /** The date a `\d{8}` match at `i` spells. */
  function ReadDate(s: string, i: nat): Date
    requires DayAt(s, i)
  {
    Date(Number(s, i, 4), Number(s, i + 4, 2), Number(s, i + 6, 2))
  }

  /** The first date-time token after the last `TZID=`, when `strptime`
      accepts it; a leftmost token that is no real date-time is not skipped. */
  function StampOf(s: string): (r: Option<Stamp>)
    ensures r.Some? ==> ValidStamp(r.value)
  {
    var x := AfterTzid(s);
    match FindStamp(x)
    case None => None
    case Some(i) => var t := ReadStamp(x, i); if ValidStamp(t) then Some(t) else None
  }

  /** The first eight-digit date after the last `TZID=`, when valid. */
  function DayOf(s: string): (r: Option<Date>)
    ensures r.Some? ==> ValidDate(r.value)
  {
    var x := AfterTzid(s);
    match FindDay(x)
    case None => None
    case Some(i) => var d := ReadDate(x, i); if ValidDate(d) then Some(d) else None
  }

  /** `get_duration_hours` in whole seconds: end minus start when both ends
      carry a valid date-time, otherwise 0. */
  function DurationSeconds(e: Event): int {
    match (StampOf(e.dtstart), StampOf(e.dtend))
    case (Some(a), Some(b)) => Seconds(b) - Seconds(a)
    case _ => 0
  }

  /** `get_duration_hours`, exactly. */
  function Hours(e: Event): real {
    DurationSeconds(e) as real / 3600.0
  }

  /** `get_date`: the start date as `YYYY-MM-DD`, or `""`. */
  function DateOf(e: Event): (r: string)
    ensures r == "" || (IsoShape(r) && ValidDate(ReadIso(r)) && IsoDate(ReadIso(r)) == r)
  {
    match DayOf(e.dtstart)
    case None => ""
    case Some(d) => IsoRoundTrip(d); IsoDate(d)
  }

  /** `get_month` of the stakeholder script: the first seven characters of
      the date text, or `""`. */
  function MonthOf(e: Event): (r: string)
    ensures r == "" <==> DateOf(e) == ""
    ensures r != "" ==> |r| == 7 && IsPrefix(r, DateOf(e))
  {
    var date := DateOf(e);
    if date != "" then Take(date, 7) else ""
  }

  /** `get_month` of the tags script, formatted straight from the parsed date. */
  function MonthText(e: Event): (r: string)
    ensures r == "" || |r| == 7
  {
    match DayOf(e.dtstart)
    case None => ""
    case Some(d) => IsoMonth(d)
  }

  /** The two scripts' `get_month` agree on every event. */
  lemma MonthsAgree(e: Event)
    ensures MonthOf(e) == MonthText(e)
  {
    match DayOf(e.dtstart)
    case None =>
    case Some(d) => IsoMonthPrefix(d);
  }

  /** `get_day_of_week`: the date text is parsed back and named. */
  function WeekdayOf(e: Event): (r: string)
    ensures r == "Unknown" || r in WeekdayNames
  {
    var date := DateOf(e);
    if date != "" && IsoShape(date) && ValidDate(ReadIso(date)) then WeekdayName(ReadIso(date))
    else "Unknown"
  }

  /** The weekday is unknown exactly when the date is. */
  lemma WeekdayUnknownIff(e: Event)
    ensures WeekdayOf(e) == "Unknown" <==> DateOf(e) == ""
  {
    var date := DateOf(e);
    if date != "" {
      assert WeekdayOf(e) in WeekdayNames;
    }
  }

  /** The band names of `get_time_of_day`. */
  function SlotName(hour: nat): (r: string) {
    if hour < 6 then "Night (00:00-06:00)"
    else if hour < 9 then "Early Morning (06:00-09:00)"
    else if hour < 12 then "Morning (09:00-12:00)"
    else if hour < 14 then "Lunch (12:00-14:00)"
    else if hour < 17 then "Afternoon (14:00-17:00)"
    else if hour < 20 then "Evening (17:00-20:00)"
    else "Night (20:00-24:00)"
  }

  /** `get_time_of_day`: the band of the two digits after the first `T`
      followed by six digits, or `"Unknown"`. */
  function TimeOfDay(e: Event): (r: string) {
    var x := AfterTzid(e.dtstart);
    match FindClock(x)
    case None => "Unknown"
    case Some(i) => SlotName(Number(x, i + 1, 2))
  }

  /** A band: hours in `[lo, hi)` get `name`. */
  datatype Band = Band(lo: nat, hi: nat, name: string)

  /** The bands as a table; the last one takes every two-digit hour from 20 on. */
  const Bands := [
    Band(0, 6, "Night (00:00-06:00)"),
    Band(6, 9, "Early Morning (06:00-09:00)"),
    Band(9, 12, "Morning (09:00-12:00)"),
    Band(12, 14, "Lunch (12:00-14:00)"),
    Band(14, 17, "Afternoon (14:00-17:00)"),
    Band(17, 20, "Evening (17:00-20:00)"),
    Band(20, 100, "Night (20:00-24:00)")]

  /** Every two-digit hour falls in exactly one band, and its name is the band's. */
  lemma SlotMatchesBands(hour: nat)
    requires hour < 100
    ensures exists i :: 0 <= i < |Bands| && Bands[i].lo <= hour < Bands[i].hi && SlotName(hour) == Bands[i].name
    ensures forall i, j :: 0 <= i < j < |Bands| ==> Bands[i].hi <= Bands[j].lo
  {
    var i := if hour < 6 then 0 else if hour < 9 then 1 else if hour < 12 then 2
      else if hour < 14 then 3 else if hour < 17 then 4 else if hour < 20 then 5 else 6;
    assert Bands[i].lo <= hour < Bands[i].hi && SlotName(hour) == Bands[i].name;
  }

  /** The time of day is unknown exactly when there is no `T` followed by six digits. */
  lemma UnknownSlotIff(e: Event)
    ensures TimeOfDay(e) == "Unknown" <==> FindClock(AfterTzid(e.dtstart)).None?
  {
  }

  /** A start with a date-time token always has a known time of day. */
  lemma StampGivesSlot(e: Event)
    requires FindStamp(AfterTzid(e.dtstart)).Some?
    ensures TimeOfDay(e) != "Unknown"
  {
    var x := AfterTzid(e.dtstart);
    var i := FindStamp(x).value;
    assert ClockAt(x, i + 8);
  }

  /** Swapping start and end negates the duration. */
  lemma DurationSwap(e: Event)
    ensures DurationSeconds(e.(dtstart := e.dtend, dtend := e.dtstart)) == -DurationSeconds(e)
  {
  }

  predicate DigitFree(s: string) {
    forall k :: 0 <= k < |s| ==> !IsDigit(s[k])
  }

  /** The compact form `YYYYMMDDTHHMMSS` the calendar export writes. */
  function StampText(t: Stamp): (r: string)
    ensures |r| == 15 && r[8] == 'T' && '=' !in r
  {
    Pad(t.date.year, 4) + Pad(t.date.month, 2) + Pad(t.date.day, 2) + "T"
      + Pad(t.hour, 2) + Pad(t.minute, 2) + Pad(t.second, 2)
  }

  /** The compact date `YYYYMMDD` of an all-day value. */
  function DayText(d: Date): (r: string)
    ensures |r| == 8 && '=' !in r && forall k :: 0 <= k < 8 ==> IsDigit(r[k])
  {
    Pad(d.year, 4) + Pad(d.month, 2) + Pad(d.day, 2)
  }

  /** A text without `=` cannot be reached into by `TZID=`. */
  lemma TzidStaysLeft(p: string, f: string)
    requires '=' !in f
    ensures StaysLeft(p, f, "TZID=")
  {
    forall i | |p| < i + 5 <= |p| + |f|
      ensures !OccursAt(p + f, "TZID=", i)
    {
      assert (p + f)[i + 4] == f[i + 4 - |p|] != '=';
    }
  }

  /** After a digit-free prefix, the timestamp scan lands on the value: what
      is left of the prefix is again digit-free and ends as the prefix does. */
  lemma AfterDigitFree(p: string, f: string) returns (q: string)
    requires DigitFree(p) && '=' !in f
    ensures DigitFree(q) && AfterTzid(p + f) == q + f
    ensures q == [] || (|p| > 0 && q[|q| - 1] == p[|p| - 1])
  {
    TzidStaysLeft(p, f);
    LastPieceAppend(p, f, "TZID=");
    q := LastPiece(p, "TZID=");
    LastPieceSuffix(p, "TZID=");
    assert forall k :: 0 <= k < |q| ==> q[k] == p[|p| - |q| + k];
  }

  /** The fields of a compact date-time read back as the date-time. */
  lemma ReadStampText(q: string, t: Stamp)
    requires DigitFree(q)
    ensures StampAt(q + StampText(t), |q|)
    ensures ValidStamp(t) ==> ReadStamp(q + StampText(t), |q|) == t
    ensures forall k :: 0 <= k < |q| ==> !StampAt(q + StampText(t), k)
  {
    var s := q + StampText(t);
    StampTextFields(t);
    StampShift(q, StampText(t));
    forall k | 0 <= k < |q|
      ensures !StampAt(s, k)
    {
      assert !IsDigit(s[k]);
    }
  }

  /** The compact text of a valid date-time is read back at its start. */
  lemma StampTextFields(t: Stamp)
    ensures StampAt(StampText(t), 0)
    ensures ValidStamp(t) ==> ReadStamp(StampText(t), 0) == t
  {
    var x := StampText(t);
    var y, mo, d := Pad(t.date.year, 4), Pad(t.date.month, 2), Pad(t.date.day, 2);
    var h, mi, se := Pad(t.hour, 2), Pad(t.minute, 2), Pad(t.second, 2);
    StampTextSlices(t);
    NumberLocal(y, x, 0, 0, 4);
    NumberLocal(mo, x, 0, 4, 2);
    NumberLocal(d, x, 0, 6, 2);
    NumberLocal(h, x, 0, 9, 2);
    NumberLocal(mi, x, 0, 11, 2);
    NumberLocal(se, x, 0, 13, 2);
    if ValidStamp(t) {
      NumberPad(t.date.year, 4);
      NumberPad(t.date.month, 2);
      NumberPad(t.date.day, 2);
      NumberPad(t.hour, 2);
      NumberPad(t.minute, 2);
      NumberPad(t.second, 2);
    }
  }

  /** Where each field sits in the compact text. */
  lemma StampTextSlices(t: Stamp)
    ensures var x := StampText(t);
      && x[0..4] == Pad(t.date.year, 4) && x[4..6] == Pad(t.date.month, 2) && x[6..8] == Pad(t.date.day, 2)
      && x[9..11] == Pad(t.hour, 2) && x[11..13] == Pad(t.minute, 2) && x[13..15] == Pad(t.second, 2)
  {
    var x := StampText(t);
    var y, mo, d := Pad(t.date.year, 4), Pad(t.date.month, 2), Pad(t.date.day, 2);
    var h, mi, se := Pad(t.hour, 2), Pad(t.minute, 2), Pad(t.second, 2);
    var left, right := y + mo + d, h + mi + se;
    assert x == left + "T" + right;
    assert x[0..8] == left && x[9..15] == right;
    assert left[0..4] == y && left[4..6] == mo && left[6..8] == d;
    assert right[0..2] == h && right[2..4] == mi && right[4..6] == se;
  }

  /** A prefix moves a date-time match without changing what it reads. */
  lemma StampShift(q: string, x: string)
    requires StampAt(x, 0)
    ensures StampAt(q + x, |q|) && ReadStamp(q + x, |q|) == ReadStamp(x, 0)
  {
    var s, n := q + x, |q|;
    ShiftedField(q, x, 0, 4);
    ShiftedField(q, x, 4, 2);
    ShiftedField(q, x, 6, 2);
    ShiftedField(q, x, 9, 2);
    ShiftedField(q, x, 11, 2);
    ShiftedField(q, x, 13, 2);
    ShiftedField(q, x, 0, 8);
    ShiftedField(q, x, 9, 6);
    assert s[n + 8] == x[8];
  }

  /** A field of digits read after a prefix reads as without it. */
  lemma ShiftedField(q: string, x: string, i: nat, k: nat)
    requires DigitsAt(x, i, k)
    ensures DigitsAt(q + x, |q| + i, k) && Number(q + x, |q| + i, k) == Number(x, i, k)
  {
    assert (q + x)[|q| + i..|q| + i + k] == x[i..i + k];
    NumberLocal(x, q + x, i, |q| + i, k);
  }

  /** Formatting a valid date-time after any digit-free prefix (such as
      `DTSTART;TZID=Pacific Standard Time:`) and scanning it back gives it back. */
  lemma StampRoundTrip(p: string, t: Stamp)
    requires DigitFree(p) && ValidStamp(t)
    ensures StampOf(p + StampText(t)) == Some(t)
  {
    var q := AfterDigitFree(p, StampText(t));
    ReadStampText(q, t);
  }

  /** With well-formed ends, the duration is the exact difference in seconds. */
  lemma DurationRoundTrip(e: Event, p: string, q: string, a: Stamp, b: Stamp)
    requires DigitFree(p) && DigitFree(q) && ValidStamp(a) && ValidStamp(b)
    ensures DurationSeconds(e.(dtstart := p + StampText(a), dtend := q + StampText(b))) == Seconds(b) - Seconds(a)
  {
    StampRoundTrip(p, a);
    StampRoundTrip(q, b);
  }

  /** All-day values (`DTSTART;VALUE=DATE:20240115`) carry no time, so an
      event with one has duration 0 whatever its other end says. */
  lemma DateOnlyNoDuration(e: Event, p: string, d: Date)
    requires DigitFree(p) && e.dtstart == p + DayText(d)
    ensures DurationSeconds(e) == 0
  {
    var f := DayText(d);
    var q := AfterDigitFree(p, f);
    var s := q + f;
    forall k | 0 <= k < |s|
      ensures !StampAt(s, k)
    {
      if k < |q| {
        assert !IsDigit(s[k]);
      }
    }
  }

  /** A start written as prefix and compact date-time has that date, month
      and weekday. */
  lemma DateRoundTrip(e: Event, p: string, t: Stamp)
    requires DigitFree(p) && ValidStamp(t) && e.dtstart == p + StampText(t)
    ensures DateOf(e) == IsoDate(t.date)
    ensures MonthOf(e) == IsoMonth(t.date)
    ensures WeekdayOf(e) == WeekdayName(t.date)
  {
    var f := StampText(t);
    var q := AfterDigitFree(p, f);
    var s := q + f;
    ReadStampText(q, t);
    forall k | 0 <= k < |q|
      ensures !DayAt(s, k)
    {
      assert !IsDigit(s[k]);
    }
    assert DayAt(s, |q|);
    assert FindDay(s) == Some(|q|);
    assert ReadDate(s, |q|) == t.date;
    MonthsAgree(e);
    IsoRoundTrip(t.date);
  }

  /** The same start has the band of its hour, provided the prefix does not
      end in `T` (which would pair with the first six digits). */
  lemma SlotRoundTrip(e: Event, p: string, t: Stamp)
    requires DigitFree(p) && !EndsWith(p, 'T') && ValidStamp(t) && e.dtstart == p + StampText(t)
    ensures TimeOfDay(e) == SlotName(t.hour)
  {
    var f := StampText(t);
    var q := AfterDigitFree(p, f);
    var s := q + f;
    ReadStampText(q, t);
    forall k | 0 <= k < |q| + 8
      ensures !ClockAt(s, k)
    {
      if k + 1 < |q| {
        assert !IsDigit(s[k + 1]);
      } else if k == |q| - 1 {
        assert s[k] != 'T';
      } else {
        assert IsDigit(s[k]);
      }
    }
    assert ClockAt(s, |q| + 8);
    assert FindClock(s) == Some(|q| + 8);
  }
}
