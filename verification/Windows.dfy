/** The console's time windows, anchored at `now` (internal/domain/usage/summary.go). */
module Windows {
  import opened Basics
  import opened Calendar

  datatype Window = Last5h | Last24h | Today | Week | Month | Year | Lifetime | Unknown(name: string)

  /** The fixed rows of the windows table, in order. */
  const WINDOWS := [Last5h, Last24h, Today, Week, Month, Year, Lifetime]

  function DayOf(t: int): int { t / DAY }

  function CivilAt(t: int): Date { CivilOf(DayOf(t)) }

  /** time.Date at midnight UTC; the day may run over the ends of the month. */
  function Midnight(year: int, month: int, day: int): int
    requires 1 <= month <= 12
  { DAY * DayNumber(year, month, day) }

  /** t.AddDate(0, 0, days). */
  function AddDays(t: int, days: int): int {
    var d := CivilAt(t);
    if 1 <= d.month <= 12 then Midnight(d.year, d.month, d.day + days) + t % DAY else t
  }

  /** The half-open range [start, end) of a window; None for a window no one knows. */
  function WindowBounds(w: Window, now: int): Option<(int, int)> {
    var d := CivilAt(now);
    DayOfCivil(DayOf(now));
    match w
    case Last5h => Some((now - 5 * HOUR, now))
    case Last24h => Some((now - 24 * HOUR, now))
    case Today => Some((Midnight(d.year, d.month, d.day), now))
    case Week =>
      var startOfDay := Midnight(d.year, d.month, d.day);
      var daysSinceMonday := (Weekday(DayOf(startOfDay)) + 6) % 7;
      Some((AddDays(startOfDay, -daysSinceMonday), now))
    case Month => Some((Midnight(d.year, d.month, 1), now))
    case Year => Some((Midnight(d.year, 1, 1), now))
    case Lifetime => Some((Midnight(2000, 1, 1), now))
    case Unknown(_) => None
  }

  function StartOf(w: Window, now: int): int
    requires !w.Unknown?
  {
    WindowBounds(w, now).value.0
  }

  /** The instants at which a calendar window may start. */
  ghost predicate IsBoundary(w: Window, t: int) {
    match w
    case Today => t % DAY == 0
    case Week => t % DAY == 0 && Weekday(t / DAY) == 1
    case Month => exists y, m :: 1 <= m <= 12 && t == Midnight(y, m, 1)
    case Year => exists y {:trigger Midnight(y, 1, 1)} :: t == Midnight(y, 1, 1)
    case _ => false
  }

  lemma DayFloor(t: int)
    ensures DAY * DayOf(t) <= t < DAY * DayOf(t) + DAY
  {}

  lemma DayMultiple(n: int)
    ensures DayOf(DAY * n) == n && (DAY * n) % DAY == 0
  {}

  lemma MidnightOf(t: int)
    ensures var d := CivilAt(t); IsDate(d) && Midnight(d.year, d.month, d.day) == DAY * DayOf(t)
  {
    DayOfCivil(DayOf(t));
  }

  lemma AddDaysTo(n: int, days: int)
    ensures AddDays(DAY * n, days) == DAY * (n + days)
  {
    DayMultiple(n);
    MidnightOf(DAY * n);
  }

  lemma TodayIsLatest(now: int)
    ensures StartOf(Today, now) == DAY * DayOf(now)
    ensures StartOf(Today, now) % DAY == 0 && StartOf(Today, now) <= now < StartOf(Today, now) + DAY
  {
    MidnightOf(now);
    DayFloor(now);
    DayMultiple(DayOf(now));
  }

  lemma WeekStart(now: int)
    ensures StartOf(Week, now) == DAY * (DayOf(now) - (Weekday(DayOf(now)) + 6) % 7)
  {
    MidnightOf(now);
    DayMultiple(DayOf(now));
    AddDaysTo(DayOf(now), -((Weekday(DayOf(now)) + 6) % 7));
  }

  lemma BackToMonday(now: int)
    ensures var s := DAY * (DayOf(now) - (Weekday(DayOf(now)) + 6) % 7);
            s % DAY == 0 && Weekday(s / DAY) == 1 && s <= now < s + 7 * DAY && s <= DAY * DayOf(now)
  {
    var n, back := DayOf(now), (Weekday(DayOf(now)) + 6) % 7;
    DayFloor(now);
    DayMultiple(n - back);
    assert 0 <= back <= 6 && (n - back + 4) % 7 == 1;
  }

  /** The week starts on the Monday midnight less than seven days before now, also across
      month and year borders. */
  lemma WeekIsMonday(now: int)
    ensures IsBoundary(Week, StartOf(Week, now))
    ensures StartOf(Week, now) <= now < StartOf(Week, now) + 7 * DAY
    ensures StartOf(Week, now) <= StartOf(Today, now)
  {
    TodayIsLatest(now);
    WeekStart(now);
    BackToMonday(now);
  }

  /** `d` is the date of day `n`. */
  ghost predicate IsDateOf(d: Date, n: int) { IsDate(d) && DayNumber(d.year, d.month, d.day) == n }

  /** A first of a month not after day `n` is not after the first of n's month. */
  lemma MonthOfDay(d: Date, n: int, y: int, m: int)
    requires IsDateOf(d, n) && 1 <= m <= 12
    ensures DayNumber(d.year, d.month, 1) <= n
    ensures DayNumber(y, m, 1) <= n ==> DayNumber(y, m, 1) <= DayNumber(d.year, d.month, 1)
  {
    if y > d.year || (y == d.year && m > d.month) {
      EarlierMonth(d.year, d.month, y, m);
    } else if y < d.year || m < d.month {
      EarlierMonth(y, m, d.year, d.month);
    }
  }

  /** A new year not after day `n` is not after the new year of n's year. */
  lemma YearOfDay(d: Date, n: int, y: int)
    requires IsDateOf(d, n)
    ensures DayNumber(d.year, 1, 1) <= DayNumber(d.year, d.month, 1)
    ensures DayNumber(y, 1, 1) <= n ==> DayNumber(y, 1, 1) <= DayNumber(d.year, 1, 1)
  {
    if d.month > 1 { EarlierMonth(d.year, 1, d.year, d.month); }
    if y > d.year {
      EarlierMonth(d.year, d.month, y, 1);
    } else if y < d.year {
      EarlierMonth(y, 1, d.year, 1);
    }
  }

  lemma FloorOf(t: int, n: int)
    ensures DAY * n <= t <==> n <= DayOf(t)
  {}

  lemma LatestMidnight(now: int, day: int, latest: int)
    requires day <= DayOf(now) ==> day <= latest
    ensures DAY * day <= now ==> DAY * day <= DAY * latest
  {
    FloorOf(now, day);
  }

  lemma MonthStart(now: int)
    ensures IsDateOf(CivilAt(now), DayOf(now))
    ensures StartOf(Month, now) == DAY * DayNumber(CivilAt(now).year, CivilAt(now).month, 1)
    ensures StartOf(Year, now) == DAY * DayNumber(CivilAt(now).year, 1, 1)
  {
    DayOfCivil(DayOf(now));
  }

  /** Any first-of-a-month midnight not after now is not after the month's start. */
  lemma MonthIsLatest(now: int, y: int, m: int)
    requires 1 <= m <= 12
    ensures StartOf(Month, now) <= now && StartOf(Month, now) <= DAY * DayOf(now)
    ensures Midnight(y, m, 1) <= now ==> Midnight(y, m, 1) <= StartOf(Month, now)
  {
    MonthStart(now);
    MonthOfDay(CivilAt(now), DayOf(now), y, m);
    FloorOf(now, DayNumber(y, m, 1));
    FloorOf(now, DayNumber(CivilAt(now).year, CivilAt(now).month, 1));
  }

  lemma YearOfCivil(d: Date, now: int, y: int)
    requires IsDateOf(d, DayOf(now))
    ensures DAY * DayNumber(d.year, 1, 1) <= DAY * DayNumber(d.year, d.month, 1)
    ensures DAY * DayNumber(y, 1, 1) <= now ==> DAY * DayNumber(y, 1, 1) <= DAY * DayNumber(d.year, 1, 1)
  {
    YearOfDay(d, DayOf(now), y);
    LatestMidnight(now, DayNumber(y, 1, 1), DayNumber(d.year, 1, 1));
  }

  lemma YearIsLatest(now: int, y: int)
    ensures StartOf(Year, now) <= StartOf(Month, now)
    ensures Midnight(y, 1, 1) <= now ==> Midnight(y, 1, 1) <= StartOf(Year, now)
  {
    MonthStart(now);
    YearOfCivil(CivilAt(now), now, y);
  }

  lemma StartsAreBoundaries(now: int)
    ensures IsBoundary(Month, StartOf(Month, now)) && IsBoundary(Year, StartOf(Year, now))
  {
    MonthStart(now);
    var d := CivilAt(now);
    assert StartOf(Month, now) == Midnight(d.year, d.month, 1);
    assert StartOf(Year, now) == Midnight(d.year, 1, 1);
  }

  lemma TodayLatest(now: int, t: int)
    ensures IsBoundary(Today, t) && t <= now ==> t <= StartOf(Today, now)
  {
    TodayIsLatest(now);
    LatestMidnight(now, t / DAY, DayOf(now));
  }

  lemma WeekLatest(now: int, t: int)
    ensures IsBoundary(Week, t) && t <= now ==> t <= StartOf(Week, now)
  {
    WeekIsMonday(now);
    if IsBoundary(Week, t) && t > StartOf(Week, now) { LaterMonday(StartOf(Week, now), t); }
  }

  lemma MonthLatest(now: int, t: int)
    ensures IsBoundary(Month, t) && t <= now ==> t <= StartOf(Month, now)
  {
    if y, m :| 1 <= m <= 12 && t == Midnight(y, m, 1) { MonthIsLatest(now, y, m); }
  }

  lemma YearLatest(now: int, t: int)
    ensures IsBoundary(Year, t) && t <= now ==> t <= StartOf(Year, now)
  {
    if y {:trigger Midnight(y, 1, 1)} :| t == Midnight(y, 1, 1) { YearIsLatest(now, y); }
  }

  /** Each calendar window starts at the latest of its boundaries not after now. */
  lemma CalendarStartIsLatest(w: Window, now: int, t: int)
    requires w in {Today, Week, Month, Year}
    ensures IsBoundary(w, StartOf(w, now)) && StartOf(w, now) <= now
    ensures IsBoundary(w, t) && t <= now ==> t <= StartOf(w, now)
  {
    match w
    case Today => TodayIsLatest(now); TodayLatest(now, t);
    case Week => WeekIsMonday(now); WeekLatest(now, t);
    case Month => StartsAreBoundaries(now); MonthIsLatest(now, 2000, 1); MonthLatest(now, t);
    case Year => StartsAreBoundaries(now); MonthIsLatest(now, 2000, 1); YearIsLatest(now, 2000); YearLatest(now, t);
  }

  lemma LaterMonday(a: int, b: int)
    requires IsBoundary(Week, a) && IsBoundary(Week, b) && a < b
    ensures a + 7 * DAY <= b
  {
    assert a == DAY * (a / DAY) && b == DAY * (b / DAY);
    assert (b / DAY - a / DAY) % 7 == 0;
  }

  /** Every start is monotone in now. */
  lemma StartsAreMonotone(w: Window, now: int, later: int)
    requires !w.Unknown? && now <= later
    ensures StartOf(w, now) <= StartOf(w, later)
  {
    if w in {Today, Week, Month, Year} {
      CalendarStartIsLatest(w, now, now);
      CalendarStartIsLatest(w, later, StartOf(w, now));
    }
  }

  const Y2000: int := DAY * DayNumber(2000, 1, 1)

  /** The windows contain one another as the table's rows suggest; the year is inside the
      lifetime exactly from 2000 on. */
  lemma WindowsNest(now: int)
    ensures StartOf(Last24h, now) <= StartOf(Last5h, now)
    ensures StartOf(Last24h, now) <= StartOf(Today, now)
    ensures StartOf(Week, now) <= StartOf(Today, now)
    ensures StartOf(Month, now) <= StartOf(Today, now)
    ensures StartOf(Year, now) <= StartOf(Month, now)
    ensures StartOf(Lifetime, now) <= StartOf(Year, now) <==> now >= Y2000
  {
    TodayIsLatest(now);
    WeekIsMonday(now);
    MonthIsLatest(now, 2000, 1);
    YearIsLatest(now, 2000);
  }

  /** Every window runs up to now; the rolling ones cover 5 and 24 hours, the lifetime all since
      2000-01-01T00:00:00Z; the table lists all seven. */
  lemma WindowsSpelled(w: Window, now: int)
    ensures w.Unknown? <==> WindowBounds(w, now) == None
    ensures !w.Unknown? ==> WindowBounds(w, now).value.1 == now && w in WINDOWS
    ensures StartOf(Last5h, now) == now - 18_000_000_000_000
    ensures StartOf(Last24h, now) == now - 86_400_000_000_000
    ensures StartOf(Lifetime, now) == 946_684_800_000_000_000
    ensures |WINDOWS| == 7 && DAY == 86_400_000_000_000
  {
    assert DayNumber(2000, 1, 1) == 10957;
  }
}
