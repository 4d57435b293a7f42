/** Timestamps as the `datetime` values the snapshot tool works with, and the
    proleptic Gregorian calendar arithmetic behind their ISO 8601 week dates. */
module Calendar {

  /** A naive local date and time, to the second. */
  datatype DateTime = DateTime(year: int, month: int, day: int, hour: int, minute: int, second: int)

  /** The timestamps a `datetime` can hold. */
  type Stamp = t: DateTime | Valid(t) witness DateTime(1, 1, 1, 0, 0, 0)

  predicate IsLeap(y: int) {
    y % 4 == 0 && (y % 100 != 0 || y % 400 == 0)
  }

  function DaysInMonth(y: int, m: int): int
    requires 1 <= m <= 12
  {
    if m == 2 then (if IsLeap(y) then 29 else 28)
    else if m == 4 || m == 6 || m == 9 || m == 11 then 30
    else 31
  }

  /** The values a `datetime` can hold (years 1 to 9999). */
  predicate Valid(t: DateTime) {
    && 1 <= t.year <= 9999
    && 1 <= t.month <= 12
    && 1 <= t.day <= DaysInMonth(t.year, t.month)
    && 0 <= t.hour <= 23
    && 0 <= t.minute <= 59
    && 0 <= t.second <= 59
  }

  /** Chronological order: `datetime` compares field by field, most
      significant first. */
  predicate Before(a: DateTime, b: DateTime) {
    || a.year < b.year
    || (a.year == b.year && a.month < b.month)
    || (a.year == b.year && a.month == b.month && a.day < b.day)
    || (a.year == b.year && a.month == b.month && a.day == b.day && a.hour < b.hour)
    || (a.year == b.year && a.month == b.month && a.day == b.day && a.hour == b.hour && a.minute < b.minute)
    || (a.year == b.year && a.month == b.month && a.day == b.day && a.hour == b.hour && a.minute == b.minute
        && a.second < b.second)
  }

  predicate NotAfter(a: DateTime, b: DateTime) {
    Before(a, b) || a == b
  }

  lemma BeforeIrreflexive(a: DateTime)
    ensures !Before(a, a)
  {
  }

  lemma BeforeTransitive(a: DateTime, b: DateTime, c: DateTime)
    requires Before(a, b) && Before(b, c)
    ensures Before(a, c)
  {
  }

  /** Any two timestamps are ordered one way or the other. */
  lemma BeforeTotal(a: DateTime, b: DateTime)
    ensures Before(a, b) || a == b || Before(b, a)
  {
  }

  /** A timestamp as one number that orders timestamps as `datetime` does
      (a mixed-radix reading of the fields). */
  function Instant(t: DateTime): int {
    ((((t.year * 13 + t.month) * 32 + t.day) * 24 + t.hour) * 60 + t.minute) * 60 + t.second
  }

  /** For valid timestamps, comparing instants is comparing field by field,
      and equal instants are equal timestamps. */
  lemma InstantOrder(a: Stamp, b: Stamp)
    ensures Before(a, b) <==> Instant(a) < Instant(b)
    ensures a == b <==> Instant(a) == Instant(b)
  {
  }

  // ---------------------------------------------------------------------
  // Day numbers (day 1 is 0001-01-01)
  // ---------------------------------------------------------------------

  function DaysBeforeYear(y: int): int {
    var p := y - 1;
    p * 365 + p / 4 - p / 100 + p / 400
  }

  function DaysBeforeMonth(y: int, m: int): int
    requires 1 <= m <= 12
  {
    var table := [0, 31, 59, 90, 120, 151, 181, 212, 243, 273, 304, 334];
    table[m - 1] + (if m > 2 && IsLeap(y) then 1 else 0)
  }

  /** The proleptic Gregorian ordinal of a date. */
  function Ordinal(y: int, m: int, d: int): int
    requires 1 <= m <= 12
  {
    DaysBeforeYear(y) + DaysBeforeMonth(y, m) + d
  }

  /** The ordinal of the Monday that starts week 1 of ISO year `y`: the
      Monday of the week holding the year's first Thursday. */
  function IsoWeek1Monday(y: int): int {
    MondayNear(Ordinal(y, 1, 1))
  }

  /** The Monday nearest to day `first` when the week of `first` counts
      only if it holds a Thursday on or after `first`. */
  function MondayNear(first: int): (monday: int)
    ensures monday % 7 == 1
    ensures first - 3 <= monday <= first + 3
  {
    var weekday := (first + 6) % 7;   // 0 is Monday
    if weekday > 3 then first - weekday + 7 else first - weekday
  }

  /** An ISO 8601 week-numbering year, week and weekday (1 is Monday). */
  datatype IsoDate = IsoDate(year: int, week: int, weekday: int)

  /** The ISO 8601 week date of a calendar date (ISO 8601:2004 section
      4.1.4), computed as `date.isocalendar()` does. */
  function IsoCalendar(y: int, m: int, d: int): (r: IsoDate)
    requires 1 <= m <= 12
    ensures 1 <= r.weekday <= 7
    ensures r.year == y - 1 || r.year == y || r.year == y + 1
  {
    var today := Ordinal(y, m, d);
    var monday := IsoWeek1Monday(y);
    var week := (today - monday) / 7;
    var day := (today - monday) % 7;
    if week < 0 then
      var prev := IsoWeek1Monday(y - 1);
      IsoDate(y - 1, (today - prev) / 7 + 1, (today - prev) % 7 + 1)
    else if week >= 52 && today >= IsoWeek1Monday(y + 1) then
      IsoDate(y + 1, 1, day + 1)
    else
      IsoDate(y, week + 1, day + 1)
  }

  // ---------------------------------------------------------------------
  // Properties of the week date
  // ---------------------------------------------------------------------

  /** A year has 366 days when it is a leap year and 365 otherwise. */
  lemma YearLength(y: int)
    ensures DaysBeforeYear(y + 1) - DaysBeforeYear(y) == if IsLeap(y) then 366 else 365
  {
    assert y / 4 - (y - 1) / 4 == if y % 4 == 0 then 1 else 0;
    assert y / 100 - (y - 1) / 100 == if y % 100 == 0 then 1 else 0;
    assert y / 400 - (y - 1) / 400 == if y % 400 == 0 then 1 else 0;
  }

  /** The days of a valid date fall inside its year. */
  lemma OrdinalInYear(y: int, m: int, d: int)
    requires 1 <= m <= 12 && 1 <= d <= DaysInMonth(y, m)
    ensures DaysBeforeYear(y) + 1 <= Ordinal(y, m, d) <= DaysBeforeYear(y + 1)
  {
    YearLength(y);
  }

  /** Week 1 starts on a Monday (ordinal 1, 0001-01-01, is a Monday) at most
      three days away from January 1st. */
  lemma Week1MondayNearJan1(y: int)
    ensures IsoWeek1Monday(y) % 7 == 1
    ensures Ordinal(y, 1, 1) - 3 <= IsoWeek1Monday(y) <= Ordinal(y, 1, 1) + 3
  {
  }

  /** Consecutive ISO years are 52 or 53 weeks long. */
  lemma IsoYearLength(y: int)
    ensures IsoWeek1Monday(y + 1) - IsoWeek1Monday(y) == 364
         || IsoWeek1Monday(y + 1) - IsoWeek1Monday(y) == 371
  {
    YearLength(y);
    var f, g := Ordinal(y, 1, 1), Ordinal(y + 1, 1, 1);
    assert 365 <= g - f <= 366;
    MondaysApart(f, g, MondayNear(f), MondayNear(g));
  }

  lemma MondaysApart(f: int, g: int, a: int, b: int)
    requires 365 <= g - f <= 366
    requires a % 7 == 1 && f - 3 <= a <= f + 3
    requires b % 7 == 1 && g - 3 <= b <= g + 3
    ensures b - a == 364 || b - a == 371
  {
  }

  /** ISO weeks are numbered 1 to 53, and the ISO weekday is the day of the
      week of the date (1 is Monday). */
  lemma IsoWeekRange(y: int, m: int, d: int)
    requires 1 <= m <= 12 && 1 <= d <= DaysInMonth(y, m)
    ensures 1 <= IsoCalendar(y, m, d).week <= 53
    ensures IsoCalendar(y, m, d).weekday == (Ordinal(y, m, d) + 6) % 7 + 1
  {
    IsoWeekNumber(y, m, d);
    IsoWeekday(y, m, d);
  }

  lemma IsoWeekNumber(y: int, m: int, d: int)
    requires 1 <= m <= 12 && 1 <= d <= DaysInMonth(y, m)
    ensures 1 <= IsoCalendar(y, m, d).week <= 53
  {
    var today := Ordinal(y, m, d);
    OrdinalInYear(y, m, d);
    YearLength(y - 1);
    IsoYearLength(y - 1);
    IsoYearLength(y);
    var f0, f1, f2 := Ordinal(y - 1, 1, 1), Ordinal(y, 1, 1), Ordinal(y + 1, 1, 1);
    assert f1 <= today < f2;
    assert 365 <= f1 - f0;
    WeekOf(today, f0, f1, f2, IsoWeek1Monday(y - 1), IsoWeek1Monday(y), IsoWeek1Monday(y + 1));
  }

  lemma IsoWeekday(y: int, m: int, d: int)
    requires 1 <= m <= 12
    ensures IsoCalendar(y, m, d).weekday == (Ordinal(y, m, d) + 6) % 7 + 1
  {
    var today := Ordinal(y, m, d);
    SameWeekday(today, IsoWeek1Monday(y - 1));
    SameWeekday(today, IsoWeek1Monday(y));
  }

  /** Counting days from a Monday gives the weekday (0 is Monday). */
  lemma SameWeekday(today: int, monday: int)
    requires monday % 7 == 1
    ensures (today - monday) % 7 == (today + 6) % 7
  {
  }

  /** The week arithmetic of `IsoCalendar` on plain day numbers. */
  lemma WeekOf(today: int, f0: int, f1: int, f2: int, m0: int, m1: int, m2: int)
    requires f1 <= today < f2 && 365 <= f1 - f0
    requires m0 % 7 == 1 && f0 - 3 <= m0 <= f0 + 3
    requires m1 % 7 == 1 && f1 - 3 <= m1 <= f1 + 3
    requires m1 - m0 == 364 || m1 - m0 == 371
    requires m2 - m1 == 364 || m2 - m1 == 371
    ensures (today - m1) / 7 < 0 ==> 0 <= (today - m0) / 7 <= 52
    ensures 0 <= (today - m1) / 7 && !((today - m1) / 7 >= 52 && today >= m2) ==> (today - m1) / 7 <= 52
  {
  }
}
