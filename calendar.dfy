/**
 * The proleptic Gregorian calendar on day numbers (days since 1970-01-01),
 * as JavaScript's `Date` computes it, and `Date.prototype.setMonth`, which
 * keeps the day of the month and lets it overflow into the following month.
 */
module Calendar {
  import opened Text

  datatype Civil = Civil(year: int, month: int, day: int)

  predicate IsLeap(y: int) {
    y % 4 == 0 && (y % 100 != 0 || y % 400 == 0)
  }

  function DaysInMonth(y: int, m: int): (n: int)
    requires 1 <= m <= 12
    ensures 28 <= n <= 31
  {
    if m == 2 then (if IsLeap(y) then 29 else 28)
    else if m == 4 || m == 6 || m == 9 || m == 11 then 30
    else 31
  }

  function DaysInYear(y: int): int {
    if IsLeap(y) then 366 else 365
  }

  predicate ValidCivil(c: Civil) {
    1 <= c.month <= 12 && 1 <= c.day <= DaysInMonth(c.year, c.month)
  }

  /** Days of the year `y` before the first of month `m` (month 13 stands for the year's end). */
  function DaysBeforeMonth(y: int, m: int): int
    requires 1 <= m <= 13
  {
    [0, 31, 59, 90, 120, 151, 181, 212, 243, 273, 304, 334, 365][m - 1] + (if m > 2 && IsLeap(y) then 1 else 0)
  }

  lemma MonthStep(y: int, m: int)
    requires 1 <= m <= 12
    ensures DaysBeforeMonth(y, m + 1) == DaysBeforeMonth(y, m) + DaysInMonth(y, m)
    ensures DaysBeforeMonth(y, 13) == DaysInYear(y)
  {
  }

  lemma {:induction false} MonthsAscending(y: int, m: int, n: int)
    requires 1 <= m <= n <= 13
    ensures DaysBeforeMonth(y, m) <= DaysBeforeMonth(y, n)
    decreases n - m
  {
    if m < n {
      MonthStep(y, m);
      MonthsAscending(y, m + 1, n);
    }
  }

  /** Day number of 1 January of year `y`. */
  function YearStart(y: int): int
    decreases if y < 1970 then 1970 - y else y - 1970
  {
    if y == 1970 then 0
    else if y > 1970 then YearStart(y - 1) + DaysInYear(y - 1)
    else YearStart(y + 1) - DaysInYear(y)
  }

  lemma YearStep(y: int)
    ensures YearStart(y + 1) == YearStart(y) + DaysInYear(y)
  {
  }

  lemma {:induction false} YearsAscending(a: int, b: int)
    requires a < b
    ensures YearStart(a + 1) <= YearStart(b)
    decreases b - a
  {
    YearStep(a);
    if a + 1 < b {
      YearsAscending(a + 1, b);
      YearStep(a + 1);
    }
  }

  /** Day number of a civil date. */
  function DaysFromCivil(c: Civil): (z: int)
    requires ValidCivil(c)
    ensures YearStart(c.year) <= z < YearStart(c.year + 1)
  {
    MonthStep(c.year, c.month);
    MonthsAscending(c.year, c.month + 1, 13);
    YearStep(c.year);
    YearStart(c.year) + DaysBeforeMonth(c.year, c.month) + c.day - 1
  }

  function YearFrom(z: int, y: int): (r: int)
    requires YearStart(y) <= z
    ensures YearStart(r) <= z < YearStart(r + 1)
    decreases z - YearStart(y)
  {
    YearStep(y);
    if z < YearStart(y + 1) then y else YearFrom(z, y + 1)
  }

  function YearBelow(z: int, y: int): (r: int)
    requires z < YearStart(y + 1)
    ensures YearStart(r) <= z < YearStart(r + 1)
    decreases YearStart(y + 1) - z
  {
    YearStep(y);
    if YearStart(y) <= z then y else YearBelow(z, y - 1)
  }

  /** The year holding day `z`. */
  function YearOf(z: int): (r: int)
    ensures YearStart(r) <= z < YearStart(r + 1)
  {
    if z >= 0 then YearFrom(z, 1970) else YearBelow(z, 1969)
  }

  function DateInYear(y: int, offset: int, m: int): (c: Civil)
    requires 1 <= m <= 12 && DaysBeforeMonth(y, m) <= offset < DaysInYear(y)
    ensures ValidCivil(c) && c.year == y && DaysBeforeMonth(y, c.month) + c.day - 1 == offset
    decreases 12 - m
  {
    MonthStep(y, m);
    if offset < DaysBeforeMonth(y, m + 1) then Civil(y, m, offset - DaysBeforeMonth(y, m) + 1)
    else DateInYear(y, offset, m + 1)
  }

  /** Civil date of a day number. */
  function CivilFromDays(z: int): (c: Civil)
    ensures ValidCivil(c) && DaysFromCivil(c) == z
  {
    var y := YearOf(z);
    YearStep(y);
    DateInYear(y, z - YearStart(y), 1)
  }

  /** Distinct valid dates have distinct day numbers. */
  lemma DaysFromCivilInjective(a: Civil, b: Civil)
    requires ValidCivil(a) && ValidCivil(b) && DaysFromCivil(a) == DaysFromCivil(b)
    ensures a == b
  {
    if a.year < b.year { YearsAscending(a.year, b.year); }
    if b.year < a.year { YearsAscending(b.year, a.year); }
    assert a.year == b.year;
    var y := a.year;
    if a.month != b.month {
      var lo := if a.month < b.month then a else b;
      var hi := if a.month < b.month then b else a;
      MonthStep(y, lo.month);
      MonthsAscending(y, lo.month + 1, hi.month);
      assert false;
    }
  }

  /** Day numbers and valid civil dates correspond one to one. */
  lemma CivilRoundTrip(c: Civil)
    requires ValidCivil(c)
    ensures CivilFromDays(DaysFromCivil(c)) == c
  {
    DaysFromCivilInjective(CivilFromDays(DaysFromCivil(c)), c);
  }

  /** The next day of a valid date: the next day of the month, else the first of the next month or year. */
  lemma NextDay(c: Civil)
    requires ValidCivil(c)
    ensures CivilFromDays(DaysFromCivil(c) + 1) ==
      if c.day < DaysInMonth(c.year, c.month) then Civil(c.year, c.month, c.day + 1)
      else if c.month < 12 then Civil(c.year, c.month + 1, 1)
      else Civil(c.year + 1, 1, 1)
  {
    var n := if c.day < DaysInMonth(c.year, c.month) then Civil(c.year, c.month, c.day + 1)
      else if c.month < 12 then Civil(c.year, c.month + 1, 1)
      else Civil(c.year + 1, 1, 1);
    MonthStep(c.year, c.month);
    YearStep(c.year);
    assert DaysFromCivil(n) == DaysFromCivil(c) + 1;
    CivilRoundTrip(n);
  }

  /** `getDay()`: 0 is Sunday; 1970-01-01 was a Thursday. */
  function Weekday(z: int): (w: int)
    ensures 0 <= w < 7
  {
    (z + 4) % 7
  }

  /** Consecutive days have consecutive weekdays. */
  lemma WeekdayNext(z: int)
    ensures Weekday(z + 1) == (Weekday(z) + 1) % 7
  {
  }

  /** `(weekday + 6) % 7`: the number of days since the last Monday (0 on a Monday). */
  function DaysSinceMonday(z: int): (n: int)
    ensures 0 <= n < 7
    ensures Weekday(z - n) == 1
  {
    (Weekday(z) + 6) % 7
  }

  /**
   * `d.setMonth(month0)` with the zero-based month `month0` (which may run
   * past December or before January): the year carries, the day of the
   * month is kept, and a day the target month lacks runs into the next.
   */
  function SetMonth(c: Civil, month0: int): Civil
    requires ValidCivil(c)
  {
    var first := Civil(c.year + month0 / 12, month0 % 12 + 1, 1);
    CivilFromDays(DaysFromCivil(first) + c.day - 1)
  }

  /** The month `month0` lands in, with the day clamped to its length. */
  function AddMonthsClamped(c: Civil, month0: int): (r: Civil)
    requires ValidCivil(c)
    ensures ValidCivil(r)
    ensures r.year == c.year + month0 / 12 && r.month == month0 % 12 + 1
    ensures r.day <= c.day
  {
    var y := c.year + month0 / 12;
    var m := month0 % 12 + 1;
    Civil(y, m, if c.day <= DaysInMonth(y, m) then c.day else DaysInMonth(y, m))
  }

  /** Whenever the day exists in the target month, `setMonth` lands in that month on that day. */
  lemma SetMonthWhenDayFits(c: Civil, month0: int)
    requires ValidCivil(c)
    requires c.day <= DaysInMonth(c.year + month0 / 12, month0 % 12 + 1)
    ensures SetMonth(c, month0) == AddMonthsClamped(c, month0)
  {
    var t := AddMonthsClamped(c, month0);
    assert DaysFromCivil(t) == DaysFromCivil(Civil(t.year, t.month, 1)) + c.day - 1;
    CivilRoundTrip(t);
  }

  /** On 31 January 2025 one month forward is 3 March, not February. */
  lemma SetMonthSkipsFebruary()
    ensures SetMonth(Civil(2025, 1, 31), 1) == Civil(2025, 3, 3)
    ensures AddMonthsClamped(Civil(2025, 1, 31), 1) == Civil(2025, 2, 28)
  {
    assert !IsLeap(2025);
    var t := Civil(2025, 3, 3);
    assert DaysFromCivil(t) == DaysFromCivil(Civil(2025, 2, 1)) + 30;
    CivilRoundTrip(t);
  }

  /** `toISOString().split('T')[0]`: `YYYY-MM-DD`, or a signed six-digit year outside 0..9999. */
  function IsoDate(c: Civil): string
    requires ValidCivil(c)
  {
    var y := if 0 <= c.year <= 9999 then PadNum(c.year, 4)
             else (if c.year < 0 then "-" else "+") + PadNum(if c.year < 0 then -c.year else c.year, 6);
    y + "-" + PadNum(c.month as nat, 2) + "-" + PadNum(c.day as nat, 2)
  }

  /** A four-digit-year date renders as ten characters whose fields read back as the date. */
  lemma IsoDateFields(c: Civil)
    requires ValidCivil(c) && 0 <= c.year <= 9999
    ensures |IsoDate(c)| == 10 && IsoDate(c)[4] == '-' && IsoDate(c)[7] == '-'
    ensures forall i :: 0 <= i < 10 && i != 4 && i != 7 ==> IsDigit(IsoDate(c)[i])
    ensures DigitsValue(IsoDate(c)[..4]) == c.year
    ensures DigitsValue(IsoDate(c)[5..7]) == c.month
    ensures DigitsValue(IsoDate(c)[8..10]) == c.day
  {
    assert Pow10(4) == 10000 && Pow10(2) == 100;
    PadNumWidth(c.year, 4);
    PadNumWidth(c.month as nat, 2);
    PadNumWidth(c.day as nat, 2);
    var y, m, d := PadNum(c.year, 4), PadNum(c.month as nat, 2), PadNum(c.day as nat, 2);
    assert IsoDate(c) == y + "-" + m + "-" + d;
    DashLayout(y, m, d);
  }

  /** Four and two and two digits joined by dashes: ten characters, dashes at 4 and 7, the fields in place. */
  lemma DashLayout(y: string, m: string, d: string)
    requires |y| == 4 && |m| == 2 && |d| == 2
    requires forall i :: 0 <= i < 4 ==> IsDigit(y[i])
    requires forall i :: 0 <= i < 2 ==> IsDigit(m[i]) && IsDigit(d[i])
    ensures var r := y + "-" + m + "-" + d;
      |r| == 10 && r[4] == '-' && r[7] == '-' && r[..4] == y && r[5..7] == m && r[8..10] == d
      && forall i :: 0 <= i < 10 && i != 4 && i != 7 ==> IsDigit(r[i])
  {
    var r := y + "-" + m + "-" + d;
    assert r[..4] == y && r[5..7] == m && r[8..10] == d;
    forall i | 0 <= i < 10 && i != 4 && i != 7 ensures IsDigit(r[i]) {
      if i < 4 { assert r[i] == y[i]; }
      else if i < 7 { assert r[i] == m[i - 5]; }
      else { assert r[i] == d[i - 8]; }
    }
  }
}
