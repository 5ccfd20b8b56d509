/**
 `_days_from_civil` and `_iso8601_epoch` of omg_cli/deny.py: the day count against a count of calendar
 days, and accepted timestamps (section 5.6 of RFC 3339, without leap seconds) as instants.
 */
module CivilTime {
  import opened Options

  // ---------- the calendar ----------

  predicate Leap(year: int) { year % 4 == 0 && (year % 100 != 0 || year % 400 == 0) }

  function MonthDays(year: int, month: int): (n: int)
    requires 1 <= month <= 12
    ensures 28 <= n <= 31
  {
    if month == 2 then (if Leap(year) then 29 else 28)
    else if month in {4, 6, 9, 11} then 30 else 31
  }

  datatype Date = Date(year: int, month: int, day: int)

  predicate Exists(d: Date) { 1 <= d.month <= 12 && 1 <= d.day <= MonthDays(d.year, d.month) }

  function NextDay(d: Date): Date
    requires Exists(d)
  {
    if d.day < MonthDays(d.year, d.month) then d.(day := d.day + 1)
    else if d.month < 12 then Date(d.year, d.month + 1, 1)
    else Date(d.year + 1, 1, 1)
  }

  function YearDays(year: int): int { if Leap(year) then 366 else 365 }

  /** The days from 0001-01-01 to the first day of the year. */
  function DaysBeforeYear(year: int): int
    requires year >= 1
    decreases year
  {
    if year == 1 then 0 else DaysBeforeYear(year - 1) + YearDays(year - 1)
  }

  function DaysBeforeMonth(year: int, month: int): int
    requires 1 <= month <= 12
    decreases month
  {
    if month == 1 then 0 else DaysBeforeMonth(year, month - 1) + MonthDays(year, month - 1)
  }

  /** The number of a day, counted day by day from 0001-01-01. */
  function DayNumber(d: Date): int
    requires Exists(d) && d.year >= 1
  {
    DaysBeforeYear(d.year) + DaysBeforeMonth(d.year, d.month) + d.day - 1
  }

  // ---------- the formula ----------

  /** `_days_from_civil`; Python's // and Dafny's / agree for a positive divisor. */
  function DaysFromCivil(d: Date): int {
    var adjustedYear := d.year - (if d.month <= 2 then 1 else 0);
    var era := adjustedYear / 400;
    var yearOfEra := adjustedYear - era * 400;
    var shiftedMonth := d.month + (if d.month > 2 then -3 else 9);
    var dayOfYear := (153 * shiftedMonth + 2) / 5 + d.day - 1;
    var dayOfEra := yearOfEra * 365 + yearOfEra / 4 - yearOfEra / 100 + dayOfYear;
    era * 146097 + dayOfEra - 719468
  }

  /** The days before 1 March of the year, from which the formula counts. */
  function MarchFirst(year: int): int {
    var era := year / 400;
    var yearOfEra := year - era * 400;
    era * 146097 + yearOfEra * 365 + yearOfEra / 4 - yearOfEra / 100 - 719468
  }

  lemma NextQuotient(n: int, k: int)
    requires k in {4, 100, 400}
    ensures (n + 1) / k - n / k == if (n + 1) % k == 0 then 1 else 0
  {}

  /** Whole eras do not matter for leap years. */
  lemma LeapInEra(era: int, y: int)
    ensures Leap(400 * era + y) <==> Leap(y)
  {
    Multiples(era, y);
  }

  lemma Multiples(era: int, y: int)
    ensures (400 * era + y) % 4 == y % 4
    ensures (400 * era + y) % 100 == y % 100
    ensures (400 * era + y) % 400 == y % 400
  {
    Remainder4(100 * era + y / 4, y % 4);
    Remainder100(4 * era + y / 100, y % 100);
    Remainder400(era + y / 400, y % 400);
  }

  lemma Remainder4(q: int, r: int)
    requires 0 <= r < 4
    ensures (4 * q + r) % 4 == r
  {}

  lemma Remainder100(q: int, r: int)
    requires 0 <= r < 100
    ensures (100 * q + r) % 100 == r
  {}

  lemma Remainder400(q: int, r: int)
    requires 0 <= r < 400
    ensures (400 * q + r) % 400 == r
  {}

  /** From one March to the next lies a year whose February is that of the next year. */
  lemma MarchToMarch(year: int)
    ensures MarchFirst(year + 1) == MarchFirst(year) + (if Leap(year + 1) then 366 else 365)
  {
    hide Leap;
    var era, y := year / 400, year % 400;
    LeapInEra(era, y + 1);
    assert Leap(y + 1) == (((y + 1) % 4 == 0) && ((y + 1) % 100 != 0 || (y + 1) % 400 == 0)) by { LeapMeans(y + 1); }
    NextQuotient(y, 4);
    NextQuotient(y, 100);
    NextQuotient(year, 400);
  }

  lemma LeapMeans(y: int)
    ensures Leap(y) == ((y % 4 == 0) && (y % 100 != 0 || y % 400 == 0))
  {}

  lemma FromMarch(d: Date)
    requires Exists(d)
    ensures DaysFromCivil(d) == MarchFirst(if d.month <= 2 then d.year - 1 else d.year)
      + (153 * (if d.month > 2 then d.month - 3 else d.month + 9) + 2) / 5 + d.day - 1
  {}

  /** The count rises by exactly one from each calendar day to the next, across months, leap days and eras. */
  lemma DayAfterDay(d: Date)
    requires Exists(d)
    ensures Exists(NextDay(d)) && DaysFromCivil(NextDay(d)) == DaysFromCivil(d) + 1
    ensures DaysFromCivil(Date(1970, 1, 1)) == 0
  {
    hide DaysFromCivil, MarchFirst;
    FromMarch(d);
    FromMarch(NextDay(d));
    MarchToMarch(d.year - 1);
    EpochDay();
  }

  lemma EpochDay()
    ensures DaysFromCivil(Date(1970, 1, 1)) == 0
  {}

  /** The formula is the day-by-day count, moved to 1970-01-01. */
  lemma FormulaCounts(d: Date)
    requires Exists(d) && d.year >= 1
    ensures DaysFromCivil(d) == DayNumber(d) - 719162
  {
    hide DaysFromCivil, MarchFirst, Leap;
    YearStarts(d.year);
    MonthStarts(d.year, d.month);
    FromMarch(d);
    FromMarch(Date(d.year, d.month, 1));
  }

  lemma {:induction false} YearStarts(year: int)
    requires year >= 1
    ensures DaysFromCivil(Date(year, 1, 1)) == DaysBeforeYear(year) - 719162
    decreases year
  {
    hide DaysFromCivil, MarchFirst;
    if year == 1 {
      assert DaysFromCivil(Date(1, 1, 1)) == -719162 by { FirstDay(); }
    } else {
      YearStarts(year - 1);
      FromMarch(Date(year, 1, 1));
      FromMarch(Date(year - 1, 1, 1));
      MarchToMarch(year - 2);
    }
  }

  lemma FirstDay()
    ensures DaysFromCivil(Date(1, 1, 1)) == -719162
  {}

  lemma {:induction false} MonthStarts(year: int, month: int)
    requires year >= 1 && 1 <= month <= 12
    ensures DaysFromCivil(Date(year, month, 1)) == DaysFromCivil(Date(year, 1, 1)) + DaysBeforeMonth(year, month)
    decreases month
  {
    hide DaysFromCivil, MarchFirst, Leap;
    if month > 1 {
      MonthStarts(year, month - 1);
      FromMarch(Date(year, month, 1));
      FromMarch(Date(year, month - 1, 1));
      MarchToMarch(year - 1);
    }
  }
}
