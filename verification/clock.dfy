/** The proleptic Gregorian calendar as Python's `datetime` uses it: which
    `YYYYMMDDTHHMMSS` tokens `strptime` accepts, the day ordinal behind
    subtraction and `weekday()`, and zero-padded decimal formatting. */
module Clock {
  import opened Text

  datatype Date = Date(year: nat, month: nat, day: nat)
  datatype Stamp = Stamp(date: Date, hour: nat, minute: nat, second: nat)

  predicate IsLeap(y: int) {
    y % 4 == 0 && (y % 100 != 0 || y % 400 == 0)
  }

  function DaysInMonth(y: int, m: int): (r: nat)
    requires 1 <= m <= 12
    ensures 28 <= r <= 31
  {
    if m == 2 then (if IsLeap(y) then 29 else 28)
    else if m == 4 || m == 6 || m == 9 || m == 11 then 30
    else 31
  }

  /** What `datetime(y, m, d)` accepts for a four-digit year: `MINYEAR` is 1,
      so the year `0000` is refused. */
  predicate ValidDate(d: Date) {
    1 <= d.year <= 9999 && 1 <= d.month <= 12 && 1 <= d.day <= DaysInMonth(d.year, d.month)
  }

  /** `strptime` reads two-digit hour, minute and second fields; its pattern
      lets seconds 60 and 61 through, but `datetime` itself refuses them. */
  predicate ValidStamp(t: Stamp) {
    ValidDate(t.date) && t.hour < 24 && t.minute < 60 && t.second < 60
  }

  function DaysBeforeYear(y: nat): nat
    requires y >= 1
  {
    (y - 1) * 365 + (y - 1) / 4 - (y - 1) / 100 + (y - 1) / 400
  }

  function DaysBeforeMonth(y: nat, m: nat): nat
    requires 1 <= m <= 13
  {
    if m == 1 then 0 else DaysBeforeMonth(y, m - 1) + DaysInMonth(y, m - 1)
  }

  /** `date.toordinal()`: 0001-01-01 is day 1. */
  function Ordinal(d: Date): (r: int)
    requires ValidDate(d)
    ensures r >= 1
  {
    DaysBeforeYear(d.year) + DaysBeforeMonth(d.year, d.month) + d.day
  }

  /** The calendar day after `d`. */
  function NextDay(d: Date): Date
    requires ValidDate(d)
  {
    if d.day < DaysInMonth(d.year, d.month) then Date(d.year, d.month, d.day + 1)
    else if d.month < 12 then Date(d.year, d.month + 1, 1)
    else Date(d.year + 1, 1, 1)
  }

  lemma YearLength(y: nat)
    requires y >= 1
    ensures DaysBeforeMonth(y, 13) == if IsLeap(y) then 366 else 365
    ensures DaysBeforeYear(y + 1) == DaysBeforeYear(y) + DaysBeforeMonth(y, 13)
  {
    var feb := DaysInMonth(y, 2);
    assert DaysBeforeMonth(y, 1) == 0;
    assert DaysBeforeMonth(y, 2) == 31;
    assert DaysBeforeMonth(y, 3) == 31 + feb;
    assert DaysBeforeMonth(y, 4) == 62 + feb;
    assert DaysBeforeMonth(y, 5) == 92 + feb;
    assert DaysBeforeMonth(y, 6) == 123 + feb;
    assert DaysBeforeMonth(y, 7) == 153 + feb;
    assert DaysBeforeMonth(y, 8) == 184 + feb;
    assert DaysBeforeMonth(y, 9) == 215 + feb;
    assert DaysBeforeMonth(y, 10) == 245 + feb;
    assert DaysBeforeMonth(y, 11) == 276 + feb;
    assert DaysBeforeMonth(y, 12) == 306 + feb;
    assert DaysBeforeMonth(y, 13) == 337 + feb;
    assert y / 4 == (y - 1) / 4 + (if y % 4 == 0 then 1 else 0);
    assert y / 100 == (y - 1) / 100 + (if y % 100 == 0 then 1 else 0);
    assert y / 400 == (y - 1) / 400 + (if y % 400 == 0 then 1 else 0);
  }

  /** The ordinal counts days: the next day's ordinal is one more. */
  lemma OrdinalNextDay(d: Date)
    requires ValidDate(d) && ValidDate(NextDay(d))
    ensures Ordinal(NextDay(d)) == Ordinal(d) + 1
  {
    if d.day == DaysInMonth(d.year, d.month) && d.month == 12 {
      YearLength(d.year);
    }
  }

  /** `weekday()`: 0 is Monday. */
  function WeekdayIndex(d: Date): (r: nat)
    requires ValidDate(d)
    ensures r < 7
  {
    (Ordinal(d) + 6) % 7
  }

  const WeekdayNames: seq<string> := ["Monday", "Tuesday", "Wednesday", "Thursday", "Friday", "Saturday", "Sunday"]

  /** `strftime('%A')` in the C locale. */
  function WeekdayName(d: Date): (r: string)
    requires ValidDate(d)
    ensures r in WeekdayNames
  {
    WeekdayNames[WeekdayIndex(d)]
  }

  /** Consecutive days have consecutive weekdays. */
  lemma WeekdayNextDay(d: Date)
    requires ValidDate(d) && ValidDate(NextDay(d))
    ensures WeekdayIndex(NextDay(d)) == (WeekdayIndex(d) + 1) % 7
  {
    OrdinalNextDay(d);
    ModSucc(Ordinal(d) + 6);
  }

  lemma ModSucc(n: nat)
    ensures (n + 1) % 7 == (n % 7 + 1) % 7
  {
    var q, r := n / 7, n % 7;
    assert n == 7 * q + r;
    if r < 6 {
      assert n + 1 == 7 * q + (r + 1);
    } else {
      assert n + 1 == 7 * (q + 1);
    }
  }

  /** An anchor: 1 January 2024 was a Monday. */
  lemma NewYear2024IsMonday()
    ensures WeekdayName(Date(2024, 1, 1)) == "Monday"
  {
    assert DaysBeforeYear(2024) == 738885;
  }

  /** Seconds since the start of day 0 of the ordinal count; differences
      of these are `(end - start).total_seconds()`. */
  function Seconds(t: Stamp): int
    requires ValidStamp(t)
  {
    Ordinal(t.date) * 86400 + t.hour * 3600 + t.minute * 60 + t.second
  }

  /** Two valid stamps of the same day are as far apart as their clock times. */
  lemma SameDaySeconds(a: Stamp, b: Stamp)
    requires ValidStamp(a) && ValidStamp(b) && a.date == b.date
    ensures Seconds(b) - Seconds(a) == (b.hour - a.hour) * 3600 + (b.minute - a.minute) * 60 + (b.second - a.second)
  {
  }

  /** Midnight of the next day is exactly one day after midnight. */
  lemma MidnightToMidnight(d: Date)
    requires ValidDate(d) && ValidDate(NextDay(d))
    ensures Seconds(Stamp(NextDay(d), 0, 0, 0)) - Seconds(Stamp(d, 0, 0, 0)) == 86400
  {
    OrdinalNextDay(d);
  }

  function DigitChar(n: nat): (c: char)
    requires n < 10
    ensures IsDigit(c) && DigitValue(c) == n
  {
    ('0' as int + n) as char
  }

  /** `n` written with exactly `k` digits, zero-padded on the left (the
      low-order digits when `n` does not fit). */
  function Pad(n: nat, k: nat): (r: string)
    ensures |r| == k
    ensures forall i :: 0 <= i < k ==> IsDigit(r[i])
  {
    if k == 0 then "" else Pad(n / 10, k - 1) + [DigitChar(n % 10)]
  }

  function Pow10(k: nat): (r: nat)
    ensures r >= 1
  {
    if k == 0 then 1 else 10 * Pow10(k - 1)
  }

  /** The value of the `k` decimal digits of `s` starting at `i`. */
  function Number(s: string, i: nat, k: nat): (r: nat)
    requires i + k <= |s| && forall j :: i <= j < i + k ==> IsDigit(s[j])
    ensures r < Pow10(k)
  {
    if k == 0 then 0 else Number(s, i, k - 1) * 10 + DigitValue(s[i + k - 1])
  }

  /** A number only depends on the digits it reads. */
  lemma {:induction false} NumberLocal(s: string, t: string, i: nat, j: nat, k: nat)
    requires i + k <= |s| && forall x :: i <= x < i + k ==> IsDigit(s[x])
    requires j + k <= |t| && t[j..j + k] == s[i..i + k]
    ensures forall x :: j <= x < j + k ==> IsDigit(t[x])
    ensures Number(s, i, k) == Number(t, j, k)
  {
    forall x | j <= x < j + k
      ensures t[x] == s[i + (x - j)]
    {
      assert t[x] == t[j..j + k][x - j];
    }
    if k > 0 {
      assert t[j..j + k - 1] == s[i..i + k - 1];
      NumberLocal(s, t, i, j, k - 1);
    }
  }

  /** Reading back a padded number gives the number. */
  lemma {:induction false} NumberPad(n: nat, k: nat)
    requires n < Pow10(k)
    ensures Number(Pad(n, k), 0, k) == n
  {
    if k > 0 {
      var p := Pad(n, k);
      var q := Pad(n / 10, k - 1);
      assert p == q + [DigitChar(n % 10)];
      NumberPad(n / 10, k - 1);
      NumberLocal(q, p, 0, 0, k - 1);
    }
  }

  /** `strftime('%Y-%m-%d')`, years zero-padded to four digits. */
  function IsoDate(d: Date): (r: string)
    ensures |r| == 10
  {
    Pad(d.year, 4) + "-" + Pad(d.month, 2) + "-" + Pad(d.day, 2)
  }

  /** `strftime('%Y-%m')` */
  function IsoMonth(d: Date): (r: string)
    ensures |r| == 7
  {
    Pad(d.year, 4) + "-" + Pad(d.month, 2)
  }

  /** The shape `strptime(text, '%Y-%m-%d')` is applied to here: four, two
      and two digits separated by hyphens. */
  predicate IsoShape(t: string) {
    && |t| == 10 && t[4] == '-' && t[7] == '-'
    && (forall j :: 0 <= j < 4 ==> IsDigit(t[j]))
    && (forall j :: 5 <= j < 7 ==> IsDigit(t[j]))
    && (forall j :: 8 <= j < 10 ==> IsDigit(t[j]))
  }

  /** The date a `YYYY-MM-DD` text denotes. */
  function ReadIso(t: string): Date
    requires IsoShape(t)
  {
    Date(Number(t, 0, 4), Number(t, 5, 2), Number(t, 8, 2))
  }

  /** Formatting a valid date and reading it back gives the same date. */
  lemma IsoRoundTrip(d: Date)
    requires ValidDate(d)
    ensures IsoShape(IsoDate(d))
    ensures ReadIso(IsoDate(d)) == d
  {
    var t := IsoDate(d);
    var y, m, dd := Pad(d.year, 4), Pad(d.month, 2), Pad(d.day, 2);
    assert t == y + "-" + m + "-" + dd;
    NumberPad(d.year, 4);
    NumberPad(d.month, 2);
    NumberPad(d.day, 2);
    NumberLocal(y, t, 0, 0, 4);
    NumberLocal(m, t, 0, 5, 2);
    NumberLocal(dd, t, 0, 8, 2);
  }

  /** The month text is the first seven characters of the date text. */
  lemma IsoMonthPrefix(d: Date)
    ensures IsoMonth(d) == IsoDate(d)[..7]
  {
  }
}
