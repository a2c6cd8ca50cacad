/**
 * Time as the site stores it: a UTC instant, here a whole number of seconds
 * since 0001-01-01T00:00:00Z (DateTime.MinValue), plus the two custom formats
 * the site prints, "yyyy-MM-dd" and "yyyy-MM-dd HH:mm", on the proleptic
 * Gregorian calendar DateTime uses.
 */
module Clock {
  import opened Text

  const SecondsPerDay: int := 86400
  /** The dedup window: `DateTime.UtcNow.AddDays(-1)` is `now - OneDay`. */
  const OneDay: int := SecondsPerDay

  /** Instants DateTime can hold: before 10000-01-01. */
  const DaysInRange: int := 3652059
  const EndOfTime: int := DaysInRange * SecondsPerDay

  type Instant = t: int | 0 <= t < EndOfTime

  predicate IsLeapYear(y: int) {
    y % 4 == 0 && (y % 100 != 0 || y % 400 == 0)
  }

  function DaysInYear(y: int): int {
    if IsLeapYear(y) then 366 else 365
  }

  function DaysInMonth(y: int, m: int): int
    requires 1 <= m <= 12
  {
    if m == 2 then (if IsLeapYear(y) then 29 else 28)
    else if m == 4 || m == 6 || m == 9 || m == 11 then 30
    else 31
  }

  /** Days of year `y` before the first of month `m` (m = 13 gives the whole year). */
  function DaysBeforeMonth(y: int, m: int): int
    requires 1 <= m <= 13
  {
    [0, 31, 59, 90, 120, 151, 181, 212, 243, 273, 304, 334, 365][m - 1]
    + (if m > 2 && IsLeapYear(y) then 1 else 0)
  }

  /** Days from 0001-01-01 to the first of January of year `y`. */
  function DaysBeforeYear(y: int): int
    requires y >= 1
  {
    var p := y - 1;
    365 * p + p / 4 - p / 100 + p / 400
  }

  /** A multiple of 400 is a multiple of 100, and a multiple of 100 a multiple of 4. */
  lemma LeapDivisors(y: int)
    ensures y % 400 == 0 ==> y % 100 == 0
    ensures y % 100 == 0 ==> y % 4 == 0
  {
    if y % 400 == 0 {
      var e := 4 * (y / 400) - y / 100;
      assert y % 100 == 100 * e && 0 <= 100 * e < 100;
    }
    if y % 100 == 0 {
      var e := 25 * (y / 100) - y / 4;
      assert y % 4 == 4 * e && 0 <= 4 * e < 4;
    }
  }

  lemma DaysBeforeNextYear(y: int)
    requires y >= 1
    ensures DaysBeforeYear(y + 1) == DaysBeforeYear(y) + DaysInYear(y)
  {
    var p := y - 1;
    assert (p + 1) / 4 == p / 4 + (if y % 4 == 0 then 1 else 0);
    assert (p + 1) / 100 == p / 100 + (if y % 100 == 0 then 1 else 0);
    assert (p + 1) / 400 == p / 400 + (if y % 400 == 0 then 1 else 0);
    LeapDivisors(y);
  }

  datatype Date = Date(year: int, month: int, day: int)

  predicate ValidDate(d: Date) {
    1 <= d.year && 1 <= d.month <= 12 && 1 <= d.day <= DaysInMonth(d.year, d.month)
  }

  /** The number of days from 0001-01-01 to `d`. */
  function DayNumber(d: Date): int
    requires ValidDate(d)
  {
    DaysBeforeYear(d.year) + DaysBeforeMonth(d.year, d.month) + d.day - 1
  }

  /** The date `n` days into year `y`, counting from month `m`. */
  function FindMonth(y: int, m: int, n: int): (d: Date)
    requires y >= 1 && 1 <= m <= 12
    requires 0 <= n < DaysBeforeMonth(y, 13) - DaysBeforeMonth(y, m)
    ensures ValidDate(d) && d.year == y
    ensures DaysBeforeMonth(y, d.month) + d.day - 1 == DaysBeforeMonth(y, m) + n
    decreases 12 - m
  {
    if n < DaysInMonth(y, m) then Date(y, m, n + 1)
    else FindMonth(y, m + 1, n - DaysInMonth(y, m))
  }

  /** The date `n` days after the first of January of year `y`. */
  function FindYear(y: int, n: int): (d: Date)
    requires y >= 1 && n >= 0
    ensures ValidDate(d) && d.year >= y
    ensures DayNumber(d) == DaysBeforeYear(y) + n
    ensures n < DaysBeforeYear(10000) - DaysBeforeYear(y) ==> d.year <= 9999
    decreases n
  {
    if n < DaysInYear(y) then FindMonth(y, 1, n)
    else
      DaysBeforeNextYear(y);
      FindYear(y + 1, n - DaysInYear(y))
  }

  /** The calendar date of day number `n`. */
  function DateOfDay(n: int): (d: Date)
    requires 0 <= n < DaysInRange
    ensures ValidDate(d) && d.year <= 9999
    ensures DayNumber(d) == n
  {
    FindYear(1, n)
  }

  /** `n` in decimal, left-padded with zeros to `width` digits. */
  function PadDigits(n: nat, width: nat): (r: string)
    ensures |r| == if |NatToString(n)| < width then width else |NatToString(n)|
    ensures AllDigits(r)
  {
    var digits := NatToString(n);
    if |digits| < width then seq(width - |digits|, _ => '0') + digits else digits
  }

  lemma NatToStringShort(n: nat, width: nat)
    requires 1 <= width && n < Pow10(width)
    ensures |NatToString(n)| <= width
  {
    if n >= 10 {
      NatToStringShort(n / 10, width - 1);
    }
  }

  function Pow10(k: nat): nat {
    if k == 0 then 1 else 10 * Pow10(k - 1)
  }

  function Digits2(n: nat): (r: string)
    requires n < 100
    ensures |r| == 2 && AllDigits(r)
  {
    NatToStringShort(n, 2);
    PadDigits(n, 2)
  }

  /** `{t:yyyy-MM-dd}`. */
  function FormatDate(t: Instant): (r: string)
    ensures |r| == 10 && r[4] == '-' && r[7] == '-'
    ensures AllDigits(r[..4]) && AllDigits(r[5..7]) && AllDigits(r[8..])
  {
    var d := DateOfDay(t / SecondsPerDay);
    NatToStringShort(d.year, 4);
    var r := PadDigits(d.year, 4) + "-" + Digits2(d.month) + "-" + Digits2(d.day);
    assert r[..4] == PadDigits(d.year, 4) && r[5..7] == Digits2(d.month) && r[8..] == Digits2(d.day);
    r
  }

  /** `{t:yyyy-MM-dd HH:mm}`: the date, a space, then the hour and minute of the day. */
  function FormatMinute(t: Instant): (r: string)
    ensures |r| == 16 && r[..10] == FormatDate(t) && r[10] == ' ' && r[13] == ':'
    ensures AllDigits(r[11..13]) && AllDigits(r[14..])
  {
    var secondOfDay := t % SecondsPerDay;
    var r := FormatDate(t) + " " + Digits2(secondOfDay / 3600) + ":" + Digits2(secondOfDay % 3600 / 60);
    assert r[11..13] == Digits2(secondOfDay / 3600) && r[14..] == Digits2(secondOfDay % 3600 / 60);
    r
  }
}
