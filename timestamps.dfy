/**
 * Minute-resolution UTC timestamps and the two text layouts the bar cache
 * uses for them: the file-name layout `%Y-%m-%d-%H:%M` and the request
 * layout `%Y-%m-%dT%H:%M:%SZ` (an RFC 3339 section 5.6 `date-time` in UTC).
 *
 * A timestamp is a whole number of minutes since 1970-01-01 00:00 UTC; the
 * proleptic Gregorian calendar converts it to and from calendar fields.
 */
module Timestamps {
  import opened Common

  const MinutesPerDay: int := 1440
  const MinutesPerHour: int := 60

  predicate IsLeap(y: int)
  {
    y % 4 == 0 && (y % 100 != 0 || y % 400 == 0)
  }

  function DaysInYear(y: int): nat
  {
    if IsLeap(y) then 366 else 365
  }

  function DaysInMonth(y: int, m: int): nat
    requires 1 <= m <= 12
  {
    if m == 2 then (if IsLeap(y) then 29 else 28)
    else if m == 4 || m == 6 || m == 9 || m == 11 then 30
    else 31
  }

  /** Days of year `y` that lie before the first of month `m` (13 = the whole year). */
  function DaysBeforeMonth(y: int, m: int): nat
    requires 1 <= m <= 13
  {
    var leap := if IsLeap(y) then 1 else 0;
    if m == 1 then 0
    else if m == 2 then 31
    else if m == 3 then 59 + leap
    else if m == 4 then 90 + leap
    else if m == 5 then 120 + leap
    else if m == 6 then 151 + leap
    else if m == 7 then 181 + leap
    else if m == 8 then 212 + leap
    else if m == 9 then 243 + leap
    else if m == 10 then 273 + leap
    else if m == 11 then 304 + leap
    else if m == 12 then 334 + leap
    else 365 + leap
  }

  /** Days from 1970-01-01 to the first of January of year `y`. */
  function DaysBeforeYear(y: int): nat
    requires y >= 1970
    decreases y - 1970
  {
    if y == 1970 then 0 else DaysBeforeYear(y - 1) + DaysInYear(y - 1)
  }

  datatype DateTime = DateTime(year: int, month: int, day: int, hour: int, minute: int)

  /** Calendar fields of a minute at or after the epoch. */
  predicate ValidDateTime(d: DateTime)
  {
    1970 <= d.year && 1 <= d.month <= 12 && 1 <= d.day <= DaysInMonth(d.year, d.month) &&
    0 <= d.hour < 24 && 0 <= d.minute < 60
  }

  /** The year holding day `days` counted from the first of January of year `y`, and the day's offset in it. */
  function YearOf(days: nat, y: int): (int, nat)
    requires y >= 1970
    decreases days
  {
    if days < DaysInYear(y) then (y, days) else YearOf(days - DaysInYear(y), y + 1)
  }

  /** The month holding day-of-year `doy`. */
  function MonthOf(y: int, doy: nat): int
  {
    if doy < DaysBeforeMonth(y, 2) then 1
    else if doy < DaysBeforeMonth(y, 3) then 2
    else if doy < DaysBeforeMonth(y, 4) then 3
    else if doy < DaysBeforeMonth(y, 5) then 4
    else if doy < DaysBeforeMonth(y, 6) then 5
    else if doy < DaysBeforeMonth(y, 7) then 6
    else if doy < DaysBeforeMonth(y, 8) then 7
    else if doy < DaysBeforeMonth(y, 9) then 8
    else if doy < DaysBeforeMonth(y, 10) then 9
    else if doy < DaysBeforeMonth(y, 11) then 10
    else if doy < DaysBeforeMonth(y, 12) then 11
    else 12
  }

  function ToMinutes(d: DateTime): int
    requires ValidDateTime(d)
  {
    (DaysBeforeYear(d.year) + DaysBeforeMonth(d.year, d.month) + d.day - 1) * MinutesPerDay
    + d.hour * MinutesPerHour + d.minute
  }

  function FromMinutes(t: nat): DateTime
  {
    var (y, doy) := YearOf(t / MinutesPerDay, 1970);
    var rem := t % MinutesPerDay;
    var m := MonthOf(y, doy);
    DateTime(y, m, doy - DaysBeforeMonth(y, m) + 1, rem / MinutesPerHour, rem % MinutesPerHour)
  }

  lemma DayDivMod(t: int, days: int, rem: int)
    requires 0 <= rem < MinutesPerDay && t == days * MinutesPerDay + rem
    ensures t / MinutesPerDay == days && t % MinutesPerDay == rem
  {
  }

  lemma HourDivMod(t: int, hours: int, rem: int)
    requires 0 <= rem < MinutesPerHour && t == hours * MinutesPerHour + rem
    ensures t / MinutesPerHour == hours && t % MinutesPerHour == rem
  {
  }

  lemma {:induction false} YearOfBounds(days: nat, y: int)
    requires y >= 1970
    ensures YearOf(days, y).0 >= y
    ensures YearOf(days, y).1 < DaysInYear(YearOf(days, y).0)
    ensures DaysBeforeYear(YearOf(days, y).0) + YearOf(days, y).1 == DaysBeforeYear(y) + days
    decreases days
  {
    if days >= DaysInYear(y) {
      YearOfBounds(days - DaysInYear(y), y + 1);
    }
  }

  lemma {:induction false} YearOfInverse(y0: int, y: int, doy: nat)
    requires 1970 <= y0 <= y && doy < DaysInYear(y)
    ensures DaysBeforeYear(y) >= DaysBeforeYear(y0)
    ensures YearOf(DaysBeforeYear(y) - DaysBeforeYear(y0) + doy, y0) == (y, doy)
    decreases y - y0
  {
    if y0 < y {
      YearOfInverse(y0 + 1, y, doy);
      assert DaysBeforeYear(y0 + 1) == DaysBeforeYear(y0) + DaysInYear(y0);
    }
  }

  /** Calendar fields round-trip through minutes. */
  lemma FromToMinutes(d: DateTime)
    requires ValidDateTime(d)
    ensures ToMinutes(d) >= 0
    ensures FromMinutes(ToMinutes(d)) == d
  {
    var doy := DaysBeforeMonth(d.year, d.month) + d.day - 1;
    assert doy < DaysInYear(d.year);
    var days := DaysBeforeYear(d.year) + doy;
    var rem := d.hour * MinutesPerHour + d.minute;
    DayDivMod(ToMinutes(d), days, rem);
    HourDivMod(rem, d.hour, d.minute);
    YearOfInverse(1970, d.year, doy);
  }

  /** Every minute since the epoch has valid calendar fields, and they convert back to it. */
  lemma ToFromMinutes(t: nat)
    ensures ValidDateTime(FromMinutes(t))
    ensures ToMinutes(FromMinutes(t)) == t
  {
    var days := t / MinutesPerDay;
    YearOfBounds(days, 1970);
    var (y, doy) := YearOf(days, 1970);
    var rem := t % MinutesPerDay;
    assert t == days * MinutesPerDay + rem;
    assert rem == (rem / MinutesPerHour) * MinutesPerHour + rem % MinutesPerHour;
  }

  // ---------------------------------------------------------------------------
  // Text layouts

  predicate IsDigit(c: char)
  {
    '0' <= c <= '9'
  }

  function DigitChar(n: int): (c: char)
    requires 0 <= n < 10
    ensures IsDigit(c)
  {
    ('0' as int + n) as char
  }

  function DigitValue(c: char): int
    requires IsDigit(c)
  {
    c as int - '0' as int
  }

  /** `s` read as an unsigned decimal numeral, or None if a character is not an ASCII digit. */
  function ParseDigits(s: string): Option<nat>
  {
    if s == [] then Some(0)
    else if !IsDigit(s[|s| - 1]) then None
    else
      match ParseDigits(s[..|s| - 1])
      case None => None
      case Some(v) => Some(v * 10 + DigitValue(s[|s| - 1]))
  }

  function Pad2(n: int): (s: string)
    requires 0 <= n < 100
    ensures |s| == 2
  {
    [DigitChar(n / 10), DigitChar(n % 10)]
  }

  function Pad4(n: int): (s: string)
    requires 0 <= n < 10000
    ensures |s| == 4
  {
    [DigitChar(n / 1000), DigitChar(n / 100 % 10), DigitChar(n / 10 % 10), DigitChar(n % 10)]
  }

  lemma ParsePad2(n: int)
    requires 0 <= n < 100
    ensures ParseDigits(Pad2(n)) == Some(n)
  {
    var s := Pad2(n);
    assert s[..1] == [DigitChar(n / 10)] && s[..1][..0] == [];
    assert ParseDigits(s[..1]) == Some(n / 10);
    assert s[..|s| - 1] == s[..1];
    assert n / 10 * 10 + n % 10 == n;
  }

  lemma ParsePad4(n: int)
    requires 0 <= n < 10000
    ensures ParseDigits(Pad4(n)) == Some(n)
  {
    var s := Pad4(n);
    assert s[..1][..0] == [];
    assert ParseDigits(s[..1]) == Some(n / 1000);
    assert s[..2][..1] == s[..1];
    assert n / 1000 * 10 + n / 100 % 10 == n / 100;
    assert ParseDigits(s[..2]) == Some(n / 100);
    assert s[..3][..2] == s[..2];
    assert n / 100 * 10 + n / 10 % 10 == n / 10;
    assert ParseDigits(s[..3]) == Some(n / 10);
    assert s[..3] == s[..|s| - 1];
  }

  lemma {:induction false} DaysBeforeYearMonotone(y0: int, y: int)
    requires 1970 <= y0 <= y
    ensures DaysBeforeYear(y0) <= DaysBeforeYear(y)
    decreases y - y0
  {
    if y0 < y {
      DaysBeforeYearMonotone(y0, y - 1);
    }
  }

  /** Leap years among the years 1 to `n`. */
  function LeapsThrough(n: nat): nat
  {
    n / 4 - n / 100 + n / 400
  }

  /** The closed form of `DaysBeforeYear`: 365 days a year plus one per leap year passed. */
  lemma {:induction false} DaysBeforeYearClosed(y: int)
    requires y >= 1970
    ensures DaysBeforeYear(y) == 365 * (y - 1970) + LeapsThrough(y - 1) - LeapsThrough(1969)
    decreases y - 1970
  {
    if y > 1970 {
      DaysBeforeYearClosed(y - 1);
      LeapStep(y - 1);
    }
  }

  lemma LeapStep(y: int)
    requires y >= 1970
    ensures LeapsThrough(y) == LeapsThrough(y - 1) + if IsLeap(y) then 1 else 0
  {
    StepBy4(y);
    StepBy100(y);
    StepBy400(y);
  }

  /** Going from `y - 1` to `y` adds one to `y / 4` exactly when 4 divides `y`. */
  lemma StepBy4(y: int)
    ensures y / 4 == (y - 1) / 4 + (if y % 4 == 0 then 1 else 0)
  {
  }

  /** The same for 100; a multiple of 100 is also a multiple of 4. */
  lemma StepBy100(y: int)
    ensures y / 100 == (y - 1) / 100 + (if y % 100 == 0 then 1 else 0)
    ensures y % 100 == 0 ==> y % 4 == 0
  {
    if y % 100 == 0 {
      assert y == 4 * (25 * (y / 100));
    }
  }

  /** The same for 400; a multiple of 400 is also a multiple of 100. */
  lemma StepBy400(y: int)
    ensures y / 400 == (y - 1) / 400 + (if y % 400 == 0 then 1 else 0)
    ensures y % 400 == 0 ==> y % 100 == 0
  {
    if y % 400 == 0 {
      assert y == 100 * (4 * (y / 400));
    }
  }

  /** Days from the epoch to 10000-01-01, the first day whose year needs five digits. */
  const PrintableDays: int := 2932897

  lemma DaysBeforeYear10000()
    ensures DaysBeforeYear(10000) == PrintableDays
  {
    DaysBeforeYearClosed(10000);
  }

  /** Minutes from the epoch up to the end of year 9999, whose year prints with four digits. */
  predicate Printable(t: int)
  {
    0 <= t < PrintableDays * MinutesPerDay
  }

  lemma PrintableYear(t: int)
    requires Printable(t)
    ensures FromMinutes(t).year <= 9999
  {
    var d := FromMinutes(t);
    ToFromMinutes(t);
    if d.year > 9999 {
      DaysBeforeYearMonotone(10000, d.year);
      DaysBeforeYear10000();
    }
  }

  /** `strftime('%Y-%m-%d-%H:%M')`, the layout of cache file names and gap labels. */
  function FormatStamp(t: int): (s: string)
    requires Printable(t)
    ensures |s| == 16
  {
    ToFromMinutes(t);
    PrintableYear(t);
    var d := FromMinutes(t);
    Pad4(d.year) + "-" + Pad2(d.month) + "-" + Pad2(d.day) + "-" + Pad2(d.hour) + ":" + Pad2(d.minute)
  }

  /** `strftime('%Y-%m-%dT%H:%M:%SZ')` of a whole minute, the layout handed to the exchange. */
  function FormatRfc3339(t: int): (s: string)
    requires Printable(t)
    ensures |s| == 20
  {
    ToFromMinutes(t);
    PrintableYear(t);
    var d := FromMinutes(t);
    Pad4(d.year) + "-" + Pad2(d.month) + "-" + Pad2(d.day) + "T" + Pad2(d.hour) + ":" + Pad2(d.minute) + ":00Z"
  }

  /**
   * `strptime(s, '%Y-%m-%d-%H:%M')` for zero-padded fields and the years
   * from 1970 on: None where strptime raises ValueError. strptime also takes
   * unpadded fields and earlier years, which this model refuses.
   */
  function ParseStamp(s: string): Option<int>
  {
    if |s| != 16 || s[4] != '-' || s[7] != '-' || s[10] != '-' || s[13] != ':' then None
    else
      match (ParseDigits(s[0..4]), ParseDigits(s[5..7]), ParseDigits(s[8..10]), ParseDigits(s[11..13]), ParseDigits(s[14..16]))
      case (Some(y), Some(mo), Some(dd), Some(h), Some(mi)) =>
        if 1 <= mo <= 12 && ValidDateTime(DateTime(y, mo, dd, h, mi))
        then Some(ToMinutes(DateTime(y, mo, dd, h, mi)))
        else None
      case _ => None
  }

  /** Where the five fields and four separators of the `%Y-%m-%d-%H:%M` layout sit. */
  lemma StampLayout(y: string, mo: string, dd: string, h: string, mi: string)
    requires |y| == 4 && |mo| == 2 && |dd| == 2 && |h| == 2 && |mi| == 2
    ensures var s := y + "-" + mo + "-" + dd + "-" + h + ":" + mi;
      && |s| == 16 && s[4] == '-' && s[7] == '-' && s[10] == '-' && s[13] == ':'
      && s[0..4] == y && s[5..7] == mo && s[8..10] == dd && s[11..13] == h && s[14..16] == mi
  {
  }

  /** Formatting a minute and parsing it back is exact. */
  lemma ParseFormatStamp(t: int)
    requires Printable(t)
    ensures ParseStamp(FormatStamp(t)) == Some(t)
  {
    ToFromMinutes(t);
    PrintableYear(t);
    var d := FromMinutes(t);
    StampLayout(Pad4(d.year), Pad2(d.month), Pad2(d.day), Pad2(d.hour), Pad2(d.minute));
    ParsePad4(d.year);
    ParsePad2(d.month);
    ParsePad2(d.day);
    ParsePad2(d.hour);
    ParsePad2(d.minute);
  }
}
