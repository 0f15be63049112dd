/** Python's naive `datetime` in the proleptic Gregorian calendar: validity, chronological
    order, and the count of microseconds since 1970-01-01 00:00 when the value is read as UTC. */
module Calendar {

  datatype Datetime = Datetime(year: int, month: int, day: int,
                               hour: int, minute: int, second: int, microsecond: int)

  predicate IsLeapYear(y: int) {
    y % 4 == 0 && (y % 100 != 0 || y % 400 == 0)
  }

  function DaysInYear(y: int): int {
    if IsLeapYear(y) then 366 else 365
  }

  function DaysInMonth(y: int, m: int): int
    requires 1 <= m <= 12
  {
    if m == 2 then (if IsLeapYear(y) then 29 else 28)
    else if m == 4 || m == 6 || m == 9 || m == 11 then 30
    else 31
  }

  /** The values Python's `datetime` accepts (years 1 to 9999). */
  predicate Valid(d: Datetime) {
    && 1 <= d.year <= 9999
    && 1 <= d.month <= 12
    && 1 <= d.day <= DaysInMonth(d.year, d.month)
    && 0 <= d.hour < 24 && 0 <= d.minute < 60 && 0 <= d.second < 60
    && 0 <= d.microsecond < 1000000
  }

  /** Days from 0001-01-01 to January 1st of year `y` (floor division, as Python's `//`). */
  function DaysBeforeYear(y: int): int {
    var y1 := y - 1;
    y1 * 365 + y1 / 4 - y1 / 100 + y1 / 400
  }

  /** Days from January 1st to the first of month `m` in year `y`. */
  function DaysBeforeMonth(y: int, m: int): int
    requires 1 <= m <= 12
  {
    var leap := if IsLeapYear(y) then 1 else 0;
    if m == 1 then 0 else if m == 2 then 31
    else if m == 3 then 59 + leap else if m == 4 then 90 + leap
    else if m == 5 then 120 + leap else if m == 6 then 151 + leap
    else if m == 7 then 181 + leap else if m == 8 then 212 + leap
    else if m == 9 then 243 + leap else if m == 10 then 273 + leap
    else if m == 11 then 304 + leap else 334 + leap
  }

  /** Python's `date.toordinal()`: 0001-01-01 is day 1. */
  function Ordinal(d: Datetime): int
    requires 1 <= d.month <= 12
  {
    DaysBeforeYear(d.year) + DaysBeforeMonth(d.year, d.month) + d.day
  }

  const EpochOrdinal: int := 719163

  /** Whole days from 1970-01-01 to the date part of `d` (negative before 1970). */
  function EpochDays(d: Datetime): int
    requires 1 <= d.month <= 12
  {
    Ordinal(d) - EpochOrdinal
  }

  function SecondOfDay(d: Datetime): int {
    d.hour * 3600 + d.minute * 60 + d.second
  }

  /** Microseconds from 1970-01-01 00:00 UTC to `d` read as a UTC time. */
  function UnixMicros(d: Datetime): int
    requires 1 <= d.month <= 12
  {
    (EpochDays(d) * 86400 + SecondOfDay(d)) * 1000000 + d.microsecond
  }

  /** Python's `a < b` on datetimes: lexicographic on the fields. */
  predicate Before(a: Datetime, b: Datetime) {
    if a.year != b.year then a.year < b.year
    else if a.month != b.month then a.month < b.month
    else if a.day != b.day then a.day < b.day
    else if a.hour != b.hour then a.hour < b.hour
    else if a.minute != b.minute then a.minute < b.minute
    else if a.second != b.second then a.second < b.second
    else a.microsecond < b.microsecond
  }

  lemma DaysBeforeYearStep(y: int)
    ensures DaysBeforeYear(y + 1) == DaysBeforeYear(y) + DaysInYear(y)
  {
    var y1 := y - 1;
    FloorStep(y1, 4);
    FloorStep(y1, 100);
    FloorStep(y1, 400);
    LeapDivisors(y);
    var d4, d100, d400 := y / 4 - y1 / 4, y / 100 - y1 / 100, y / 400 - y1 / 400;
    assert d4 - d100 + d400 == DaysInYear(y) - 365;
    assert DaysBeforeYear(y + 1) == y1 * 365 + 365 + y / 4 - y / 100 + y / 400;
  }

  /** A multiple of 400 is a multiple of 100, and a multiple of 100 a multiple of 4. */
  lemma LeapDivisors(y: int)
    ensures y % 400 == 0 ==> y % 100 == 0
    ensures y % 100 == 0 ==> y % 4 == 0
  {
    if y % 400 == 0 {
      var k := y / 400;
      assert y == 100 * (4 * k);
      HundredsMod(4 * k);
    }
    if y % 100 == 0 {
      var k := y / 100;
      assert y == 4 * (25 * k);
      FoursMod(25 * k);
    }
  }

  lemma HundredsMod(m: int)
    ensures (100 * m) % 100 == 0
  {
  }

  lemma FoursMod(m: int)
    ensures (4 * m) % 4 == 0
  {
  }

  /** Floor division by `k` goes up by one exactly when the next number is a multiple of `k`. */
  lemma FloorStep(a: int, k: int)
    requires k == 4 || k == 100 || k == 400
    ensures (a + 1) / k == a / k + (if (a + 1) % k == 0 then 1 else 0)
  {
    if k == 4 {
      var q := a / 4;
      assert 4 * q <= a < 4 * q + 4;
    } else if k == 100 {
      var q := a / 100;
      assert 100 * q <= a < 100 * q + 100;
    } else {
      var q := a / 400;
      assert 400 * q <= a < 400 * q + 400;
    }
  }

  /** Years are counted without gaps: every day of year `y` precedes January 1st of any later year. */
  lemma {:induction false} DaysBeforeYearMonotone(y: int, z: int)
    requires y < z
    ensures DaysBeforeYear(y) + DaysInYear(y) <= DaysBeforeYear(z)
    decreases z - y
  {
    DaysBeforeYearStep(y);
    if y + 1 < z {
      DaysBeforeYearMonotone(y + 1, z);
    }
  }

  lemma DayOfYearBounds(d: Datetime)
    requires Valid(d)
    ensures 0 <= DaysBeforeMonth(d.year, d.month) + d.day - 1 < DaysInYear(d.year)
  {
  }

  lemma DaysBeforeMonthMonotone(y: int, m: int, n: int)
    requires 1 <= m < n <= 12
    ensures DaysBeforeMonth(y, m) + DaysInMonth(y, m) <= DaysBeforeMonth(y, n)
  {
  }

  /** An earlier calendar date has a smaller day count. */
  lemma EpochDaysOrder(a: Datetime, b: Datetime)
    requires Valid(a) && Valid(b)
    requires a.year < b.year || (a.year == b.year && (a.month < b.month || (a.month == b.month && a.day < b.day)))
    ensures EpochDays(a) < EpochDays(b)
  {
    if a.year < b.year {
      DayOfYearBounds(a);
      DayOfYearBounds(b);
      DaysBeforeYearMonotone(a.year, b.year);
    } else if a.month < b.month {
      DaysBeforeMonthMonotone(a.year, a.month, b.month);
    }
  }

  /** Chronological order of valid datetimes is the order of their UTC microsecond counts. */
  lemma UnixMicrosStrictlyMonotone(a: Datetime, b: Datetime)
    requires Valid(a) && Valid(b)
    requires Before(a, b)
    ensures UnixMicros(a) < UnixMicros(b)
  {
    var da, db := EpochDays(a), EpochDays(b);
    if a.year != b.year || a.month != b.month || a.day != b.day {
      EpochDaysOrder(a, b);
      assert SecondOfDay(a) < 86400 && 0 <= SecondOfDay(b);
      assert da * 86400 + SecondOfDay(a) < db * 86400 + SecondOfDay(b);
    } else {
      assert da == db;
      assert SecondOfDay(a) <= SecondOfDay(b);
      if SecondOfDay(a) < SecondOfDay(b) {
        assert (da * 86400 + SecondOfDay(a)) * 1000000 + 1000000 <= (db * 86400 + SecondOfDay(b)) * 1000000;
      }
    }
  }

  /** Day of the week of a UTC time given in seconds since the epoch, Monday = 0 as in
      pandas' `dayofweek`; 1970-01-01 was a Thursday (3). Floor division makes it right
      before 1970 as well. */
  function DayOfWeek(t: int): (w: int)
    ensures 0 <= w < 7
  {
    (t / 86400 + 3) % 7
  }

  /** The epoch-based weekday agrees with Python's calendar weekday `(toordinal() + 6) % 7`. */
  lemma DayOfWeekOfDatetime(d: Datetime)
    requires Valid(d)
    ensures DayOfWeek(EpochDays(d) * 86400 + SecondOfDay(d)) == (Ordinal(d) + 6) % 7
  {
    var q, r := EpochDays(d), SecondOfDay(d);
    WholeDays(q, r);
    assert q + 3 == (Ordinal(d) + 6) - 7 * 102738;
    WeeksApart(Ordinal(d) + 6, 102738);
  }

  lemma WholeDays(q: int, r: int)
    requires 0 <= r < 86400
    ensures (q * 86400 + r) / 86400 == q
  {
  }

  lemma WeeksApart(a: int, k: int)
    ensures (a - 7 * k) % 7 == a % 7
  {
  }
}
