/** The proleptic Gregorian calendar and the console's time windows
    (internal/domain/usage/summary.go).

    An instant is a whole number of nanoseconds since 1970-01-01T00:00:00Z; a day is
    counted from 1970-01-01. Dafny's `/` and `%` by a positive constant round down, so
    instants and years before the epoch are covered too. */
module Calendar {

  const HOUR: int := 3600 * 1_000_000_000
  const DAY: int := 86400 * 1_000_000_000

  datatype Date = Date(year: int, month: int, day: int)

  predicate Leap(year: int) { year % 4 == 0 && (year % 100 != 0 || year % 400 == 0) }

  function YearLength(year: int): int { if Leap(year) then 366 else 365 }

  function DaysIn(year: int, month: int): int {
    if month == 2 then (if Leap(year) then 29 else 28)
    else if month == 4 || month == 6 || month == 9 || month == 11 then 30
    else 31
  }

  predicate IsDate(d: Date) { 1 <= d.month <= 12 && 1 <= d.day <= DaysIn(d.year, d.month) }

  // ---- from dates to days ----

  /** Days from 0001-01-01 to the first day of `year`. */
  function DaysBeforeYear(year: int): int {
    var p := year - 1;
    365 * p + p / 4 - p / 100 + p / 400
  }

  lemma YearStep(year: int)
    ensures DaysBeforeYear(year + 1) == DaysBeforeYear(year) + YearLength(year)
  {
    var y := year;
    assert y / 4 == (y - 1) / 4 + if y % 4 == 0 then 1 else 0;
    assert y / 100 == (y - 1) / 100 + if y % 100 == 0 then 1 else 0;
    assert y / 400 == (y - 1) / 400 + if y % 400 == 0 then 1 else 0;
    assert y % 400 == 0 ==> y % 100 == 0;
    assert y % 100 == 0 ==> y % 4 == 0;
  }

  lemma {:induction false} YearsGrow(a: int, b: int)
    requires a <= b
    ensures DaysBeforeYear(a) + 365 * (b - a) <= DaysBeforeYear(b)
    decreases b - a
  {
    if a < b {
      YearStep(b - 1);
      YearsGrow(a, b - 1);
    }
  }

  function DaysBeforeMonth(year: int, month: int): int
    requires 1 <= month <= 13
    decreases month
  {
    if month == 1 then 0 else DaysBeforeMonth(year, month - 1) + DaysIn(year, month - 1)
  }

  lemma YearIsItsMonths(year: int)
    ensures DaysBeforeMonth(year, 13) == YearLength(year)
  {
    assert DaysBeforeMonth(year, 4) == YearLength(year) - 275;
    assert DaysBeforeMonth(year, 7) == YearLength(year) - 184;
    assert DaysBeforeMonth(year, 10) == YearLength(year) - 92;
  }

  lemma {:induction false} MonthsGrow(year: int, a: int, b: int)
    requires 1 <= a < b <= 13
    ensures DaysBeforeMonth(year, a) + DaysIn(year, a) <= DaysBeforeMonth(year, b)
    decreases b
  {
    if a + 1 < b { MonthsGrow(year, a, b - 1); }
  }

  /** The day a date falls on. The day of the month may run over either end of the month,
      as time.Date allows. */
  function DayNumber(year: int, month: int, day: int): int
    requires 1 <= month <= 12
  {
    DaysBeforeYear(year) + DaysBeforeMonth(year, month) + day - 1 - 719162
  }

  // ---- from days to dates ----

  /** The year of a day counted from 0001-01-01: whole 400-year cycles, then centuries, then
      4-year cycles, then years, the last of each group taking the leap day. */
  function YearOf(n: int): int {
    var c400, r400 := n / 146097, n % 146097;
    var c100 := if r400 / 36524 == 4 then 3 else r400 / 36524;
    var r100 := r400 - 36524 * c100;
    var c4, r4 := r100 / 1461, r100 % 1461;
    var c1 := if r4 / 365 == 4 then 3 else r4 / 365;
    400 * c400 + 100 * c100 + 4 * c4 + c1 + 1
  }

  /** The first day of the year after `c400` cycles, `c100` centuries, `c4` 4-year cycles and
      `c1` years, and the length of that year. */
  lemma CycleYears(c400: int, c100: int, c4: int, c1: int)
    requires 0 <= c100 <= 3 && 0 <= c4 <= 24 && 0 <= c1 <= 3
    ensures var p := 400 * c400 + 100 * c100 + 4 * c4 + c1;
            && DaysBeforeYear(p + 1) == 146097 * c400 + 36524 * c100 + 1461 * c4 + 365 * c1
            && YearLength(p + 1) == if c1 == 3 && (c4 != 24 || c100 == 3) then 366 else 365
  {
    var p := 400 * c400 + 100 * c100 + 4 * c4 + c1;
    CycleQuotients(c400, c100, c4, c1);
    CycleRemainders(c400, c100, c4, c1);
  }

  lemma CycleQuotients(c400: int, c100: int, c4: int, c1: int)
    requires 0 <= c100 <= 3 && 0 <= c4 <= 24 && 0 <= c1 <= 3
    ensures var p := 400 * c400 + 100 * c100 + 4 * c4 + c1;
            p / 4 == 100 * c400 + 25 * c100 + c4 && p / 100 == 4 * c400 + c100 && p / 400 == c400
  {}

  lemma CycleRemainders(c400: int, c100: int, c4: int, c1: int)
    ensures var p := 400 * c400 + 100 * c100 + 4 * c4 + c1;
            && (p + 1) % 4 == (c1 + 1) % 4
            && (p + 1) % 100 == (4 * c4 + c1 + 1) % 100
            && (p + 1) % 400 == (100 * c100 + 4 * c4 + c1 + 1) % 400
  {
    var p := 400 * c400 + 100 * c100 + 4 * c4 + c1;
    assert (p + 1) % 4 == (c1 + 1) % 4 by { RemainderOf(p + 1, c1 + 1, 100 * c400 + 25 * c100 + c4, 4); }
    assert (p + 1) % 100 == (4 * c4 + c1 + 1) % 100 by { RemainderOf(p + 1, 4 * c4 + c1 + 1, 4 * c400 + c100, 100); }
    assert (p + 1) % 400 == (100 * c100 + 4 * c4 + c1 + 1) % 400 by { RemainderOf(p + 1, 100 * c100 + 4 * c4 + c1 + 1, c400, 400); }
  }

  lemma RemainderOf(n: int, rest: int, k: int, m: int)
    requires m > 0 && n == m * k + rest
    ensures n % m == rest % m
  {
    var q, r := rest / m, rest % m;
    assert n == m * (k + q) + r;
    QuotientIs(n, m, k + q, r);
  }

  lemma QuotientIs(n: int, m: int, q: int, r: int)
    requires m > 0 && n == m * q + r && 0 <= r < m
    ensures n / m == q && n % m == r
  {
    var d := n / m - q;
    assert m * d == r - n % m;
    assert d > 0 ==> m * d >= m;
    assert d < 0 ==> m * d <= -m;
  }

  lemma YearOfIsRight(n: int)
    ensures DaysBeforeYear(YearOf(n)) <= n < DaysBeforeYear(YearOf(n) + 1)
  {
    var c400, r400 := n / 146097, n % 146097;
    var c100 := if r400 / 36524 == 4 then 3 else r400 / 36524;
    var r100 := r400 - 36524 * c100;
    assert 0 <= c100 <= 3 && 0 <= r100 <= 36524 && (r100 == 36524 ==> c100 == 3);
    var c4, r4 := r100 / 1461, r100 % 1461;
    assert 0 <= c4 <= 24 && (c4 == 24 ==> r4 <= 1460) && (c4 == 24 && r4 == 1460 ==> c100 == 3);
    var c1 := if r4 / 365 == 4 then 3 else r4 / 365;
    assert 0 <= c1 <= 3 && 365 * c1 <= r4 && (r4 < 365 * (c1 + 1) || (c1 == 3 && r4 == 1460));
    CycleYears(c400, c100, c4, c1);
    YearStep(YearOf(n));
  }

  /** The month that holds day `yday` of the year, searching from `month` on. */
  function MonthOf(year: int, yday: int, month: int): int
    requires 1 <= month <= 12
    decreases 12 - month
  {
    if month == 12 || yday < DaysBeforeMonth(year, month + 1) then month else MonthOf(year, yday, month + 1)
  }

  lemma {:induction false} MonthOfIsRight(year: int, yday: int, month: int)
    requires 1 <= month <= 12 && DaysBeforeMonth(year, month) <= yday < YearLength(year)
    ensures var m := MonthOf(year, yday, month);
            month <= m <= 12 && DaysBeforeMonth(year, m) <= yday < DaysBeforeMonth(year, m + 1)
    decreases 12 - month
  {
    YearIsItsMonths(year);
    if month < 12 && yday >= DaysBeforeMonth(year, month + 1) { MonthOfIsRight(year, yday, month + 1); }
  }

  function CivilOf(n: int): Date {
    var year := YearOf(n + 719162);
    var yday := n + 719162 - DaysBeforeYear(year);
    var month := MonthOf(year, yday, 1);
    Date(year, month, if 1 <= month <= 12 then yday - DaysBeforeMonth(year, month) + 1 else yday)
  }

  /** Round trip: the date of a day is a real date, and falls on that day. */
  lemma DayOfCivil(n: int)
    ensures IsDate(CivilOf(n))
    ensures DayNumber(CivilOf(n).year, CivilOf(n).month, CivilOf(n).day) == n
  {
    var year := YearOf(n + 719162);
    YearOfIsRight(n + 719162);
    YearStep(year);
    MonthOfIsRight(year, n + 719162 - DaysBeforeYear(year), 1);
  }

  /** Dates in an earlier month come before the first of a later one. */
  lemma EarlierMonth(year: int, month: int, year': int, month': int)
    requires 1 <= month <= 12 && 1 <= month' <= 12
    requires year < year' || (year == year' && month < month')
    ensures DayNumber(year, month, DaysIn(year, month)) < DayNumber(year', month', 1)
  {
    if year == year' {
      MonthsGrow(year, month, month');
    } else {
      MonthsGrow(year, month, 13);
      YearIsItsMonths(year);
      YearStep(year);
      YearsGrow(year + 1, year');
      if month' > 1 { MonthsGrow(year', 1, month'); }
    }
  }

  /** Round trip the other way: a real date is the date of the day it falls on. */
  lemma CivilOfDay(d: Date)
    requires IsDate(d)
    ensures CivilOf(DayNumber(d.year, d.month, d.day)) == d
  {
    var n := DayNumber(d.year, d.month, d.day);
    var c := CivilOf(n);
    DayOfCivil(n);
    if c.year < d.year || (c.year == d.year && c.month < d.month) {
      EarlierMonth(c.year, c.month, d.year, d.month);
    } else if c.year > d.year || (c.year == d.year && c.month > d.month) {
      EarlierMonth(d.year, d.month, c.year, c.month);
    }
  }

  /** Days are counted from 1970-01-01. */
  lemma EpochIsDayZero()
    ensures DayNumber(1970, 1, 1) == 0
  {
    assert DaysBeforeYear(1970) == 719162;
  }

  // ---- weekdays ----

  /** Sunday is 0. 1970-01-01 was a Thursday. */
  function Weekday(n: int): int { (n + 4) % 7 }

  /** The day of the week by the congruence of RFC 3339, Appendix B. */
  function ZellerWeekday(d: Date): int {
    var month := if d.month - 2 < 1 then d.month + 10 else d.month - 2;
    var year := if d.month - 2 < 1 then d.year - 1 else d.year;
    var cent, yy := year / 100, year % 100;
    ((26 * month - 2) / 10 + d.day + yy + yy / 4 + cent / 4 + 5 * cent) % 7
  }

  function MarchOffset(month: int): int
  {
    if month == 1 then 306 else if month == 2 then 337 else if month == 3 then 0 else if month == 4 then 31
    else if month == 5 then 61 else if month == 6 then 92 else if month == 7 then 122 else if month == 8 then 153
    else if month == 9 then 184 else if month == 10 then 214 else if month == 11 then 245 else 275
  }

  lemma MonthTable(year: int, month: int)
    requires 1 <= month <= 12
    ensures DaysBeforeMonth(year, month) ==
              if month <= 2 then MarchOffset(month) - 306 else MarchOffset(month) + YearLength(year) - 306
  {
    assert DaysBeforeMonth(year, 3) == YearLength(year) - 306;
    assert DaysBeforeMonth(year, 5) == YearLength(year) - 245;
    assert DaysBeforeMonth(year, 7) == YearLength(year) - 184;
    assert DaysBeforeMonth(year, 9) == YearLength(year) - 122;
    assert DaysBeforeMonth(year, 11) == YearLength(year) - 61;
  }

  /** Counting days from the epoch gives the weekday of RFC 3339, for every date. */
  lemma WeekdayIsZeller(d: Date)
    requires 1 <= d.month <= 12
    ensures Weekday(DayNumber(d.year, d.month, d.day)) == ZellerWeekday(d)
  {
    var month := if d.month - 2 < 1 then d.month + 10 else d.month - 2;
    var year := if d.month - 2 < 1 then d.year - 1 else d.year;
    var cent, yy := year / 100, year % 100;
    MonthTable(d.year, d.month);
    YearStep(d.year);
    // days to 1 March of `year`, then the months since
    assert DayNumber(d.year, d.month, d.day) == DaysBeforeYear(year + 1) - 306 + MarchOffset(d.month) + d.day - 1 - 719162;
    assert year / 4 == 25 * cent + yy / 4;
    assert year / 400 == cent / 4;
    var k := (26 * month - 2) / 10;
    MonthCongruence(d.month);
    var q := (MarchOffset(d.month) - k) / 7;
    var z := k + d.day + yy + yy / 4 + cent / 4 + 5 * cent;
    DropSevens(z, 5217 * cent + 52 * yy + q - 102780);
  }

  lemma MonthCongruence(month: int)
    requires 1 <= month <= 12
    ensures (MarchOffset(month) - (26 * (if month - 2 < 1 then month + 10 else month - 2) - 2) / 10) % 7 == 5
  {}

  lemma DropSevens(z: int, t: int)
    ensures (z + 7 * t) % 7 == z % 7
  {}
}
