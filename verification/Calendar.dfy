/** The proleptic Gregorian calendar: dates, their ordinals, and how often a month and day recur. */
module Calendar {

  datatype Date = Date(year: int, month: int, day: int)

  predicate IsLeap(y: int) {
    y % 4 == 0 && (y % 100 != 0 || y % 400 == 0)
  }

  function YearLength(y: int): int {
    if IsLeap(y) then 366 else 365
  }

  function DaysInMonth(y: int, m: int): int {
    if m == 2 then (if IsLeap(y) then 29 else 28)
    else if m == 4 || m == 6 || m == 9 || m == 11 then 30
    else 31
  }

  predicate ValidDate(d: Date) {
    1 <= d.year && 1 <= d.month <= 12 && 1 <= d.day <= DaysInMonth(d.year, d.month)
  }

  // Adding one day.
  function NextDay(d: Date): Date {
    if d.day < DaysInMonth(d.year, d.month) then d.(day := d.day + 1)
    else if d.month < 12 then Date(d.year, d.month + 1, 1)
    else Date(d.year + 1, 1, 1)
  }

  // The date of a day number; day 1 is 0001-01-01.
  function DateOf(n: int): (d: Date)
    requires n >= 1
    ensures ValidDate(d)
  {
    if n == 1 then Date(1, 1, 1) else NextDay(DateOf(n - 1))
  }

  // Sunday is 0, as cron counts; 0001-01-01 was a Monday.
  function CronWeekday(n: int): int {
    n % 7
  }

  // ---------------------------------------------------------------- ordinals

  function DaysBeforeYear(y: int): int {
    (y - 1) * 365 + (y - 1) / 4 - (y - 1) / 100 + (y - 1) / 400
  }

  function DaysBeforeMonth(y: int, m: int): int
    requires 1 <= m <= 13
  {
    if m == 1 then 0 else DaysBeforeMonth(y, m - 1) + DaysInMonth(y, m - 1)
  }

  function DayOfYear(d: Date): int
    requires ValidDate(d)
  {
    DaysBeforeMonth(d.year, d.month) + d.day
  }

  // `date.toordinal`
  function ToOrdinal(d: Date): int
    requires ValidDate(d)
  {
    DaysBeforeYear(d.year) + DayOfYear(d)
  }

  lemma YearStep(y: int)
    ensures DaysBeforeYear(y + 1) == DaysBeforeYear(y) + YearLength(y)
  {
    assert y / 4 - (y - 1) / 4 == if y % 4 == 0 then 1 else 0;
    assert y / 100 - (y - 1) / 100 == if y % 100 == 0 then 1 else 0;
    assert y / 400 - (y - 1) / 400 == if y % 400 == 0 then 1 else 0;
  }

  lemma {:induction false} YearSpan(y: int, k: nat)
    ensures DaysBeforeYear(y) + 365 * k <= DaysBeforeYear(y + k) <= DaysBeforeYear(y) + 366 * k
  {
    if k > 0 {
      YearSpan(y, k - 1);
      YearStep(y + k - 1);
    }
  }

  lemma MonthTable(y: int)
    ensures DaysBeforeMonth(y, 13) == YearLength(y)
    ensures DaysBeforeMonth(y, 3) == YearLength(y) - 306
    ensures DaysBeforeMonth(y, 2) == 31
  {
    assert DaysBeforeMonth(y, 2) == 31;
    assert DaysBeforeMonth(y, 4) == DaysBeforeMonth(y, 3) + 31;
    assert DaysBeforeMonth(y, 6) == DaysBeforeMonth(y, 4) + 61;
    assert DaysBeforeMonth(y, 8) == DaysBeforeMonth(y, 6) + 61;
    assert DaysBeforeMonth(y, 10) == DaysBeforeMonth(y, 8) + 61;
    assert DaysBeforeMonth(y, 12) == DaysBeforeMonth(y, 10) + 61;
  }

  lemma {:induction false} MonthsApart(y: int, a: int, b: int)
    requires 1 <= a < b <= 13
    ensures DaysBeforeMonth(y, a) + DaysInMonth(y, a) <= DaysBeforeMonth(y, b)
  {
    if a + 1 < b { MonthsApart(y, a, b - 1); }
  }

  lemma DayOfYearBounds(d: Date)
    requires ValidDate(d)
    ensures 1 <= DayOfYear(d) <= YearLength(d.year)
  {
    MonthsApart(d.year, d.month, 13);
    MonthTable(d.year);
    if d.month > 1 { MonthsApart(d.year, 1, d.month); }
  }

  // An ordinal lies in its own year.
  lemma OrdinalInYear(d: Date)
    requires ValidDate(d)
    ensures DaysBeforeYear(d.year) < ToOrdinal(d) <= DaysBeforeYear(d.year + 1)
  {
    DayOfYearBounds(d);
    YearStep(d.year);
  }

  lemma NextDayOrdinal(d: Date)
    requires ValidDate(d)
    ensures ValidDate(NextDay(d)) && ToOrdinal(NextDay(d)) == ToOrdinal(d) + 1
  {
    if d.day == DaysInMonth(d.year, d.month) && d.month == 12 {
      YearStep(d.year);
      MonthTable(d.year);
    }
  }

  // Counting days from day 1 and the closed formula agree.
  lemma {:induction false} OrdinalOfDate(n: int)
    requires n >= 1
    ensures ToOrdinal(DateOf(n)) == n
  {
    if n > 1 {
      OrdinalOfDate(n - 1);
      NextDayOrdinal(DateOf(n - 1));
    }
  }

  // Ordinals order dates by year, then month, then day.
  lemma OrdinalOrder(a: Date, b: Date)
    requires ValidDate(a) && ValidDate(b)
    ensures a.year < b.year ==> ToOrdinal(a) < ToOrdinal(b)
    ensures a.year == b.year && a.month < b.month ==> ToOrdinal(a) < ToOrdinal(b)
  {
    OrdinalInYear(a);
    OrdinalInYear(b);
    if a.year < b.year { YearSpan(a.year + 1, b.year - a.year - 1); }
    if a.year == b.year && a.month < b.month { MonthsApart(a.year, a.month, b.month); }
  }

  lemma OrdinalInjective(a: Date, b: Date)
    requires ValidDate(a) && ValidDate(b) && ToOrdinal(a) == ToOrdinal(b)
    ensures a == b
  {
    OrdinalOrder(a, b);
    OrdinalOrder(b, a);
  }

  lemma DateOfOrdinal(d: Date)
    requires ValidDate(d)
    ensures ToOrdinal(d) >= 1 && DateOf(ToOrdinal(d)) == d
  {
    OrdinalInYear(d);
    YearSpan(1, d.year - 1);
    OrdinalOfDate(ToOrdinal(d));
    OrdinalInjective(DateOf(ToOrdinal(d)), d);
  }

  // ---------------------------------------------------------------- recurrence

  // A leap year is never more than eight years away, even across a century that has none.
  lemma NextLeapYear(y: int) returns (leap: int)
    ensures y < leap <= y + 8 && IsLeap(leap)
    ensures !IsLeap(y) ==> leap <= y + 7
  {
    var next := y / 4 * 4 + 4;
    leap := if IsLeap(next) then next else next + 4;
    assert next % 4 == 0;
    assert next % 100 == 0 ==> (next + 4) % 100 != 0;
  }

  // The next occurrence of a month and day other than 29 February: next year at the latest.
  lemma CommonDayRecurs(n: int, month: int, day: int) returns (k: int)
    requires n >= 1 && 1 <= month <= 12 && 1 <= day <= DaysInMonth(1, month)
    ensures n < k <= n + 732
    ensures DateOf(k).month == month && DateOf(k).day == day
  {
    var d := DateOf(n);
    OrdinalOfDate(n);
    OrdinalInYear(d);
    var x := Date(d.year, month, day);
    if ToOrdinal(x) <= n {
      x := Date(d.year + 1, month, day);
    }
    OrdinalInYear(x);
    YearSpan(d.year, 2);
    YearSpan(d.year, 1);
    DateOfOrdinal(x);
    k := ToOrdinal(x);
  }

  lemma LeapDayRecurs(n: int) returns (k: int)
    requires n >= 1
    ensures n < k <= n + 8 * 366
    ensures DateOf(k).month == 2 && DateOf(k).day == 29
  {
    var d := DateOf(n);
    OrdinalOfDate(n);
    OrdinalInYear(d);
    MonthTable(d.year);
    var year := d.year;
    if !IsLeap(year) || DayOfYear(d) >= 60 {
      year := NextLeapYear(d.year);
    }
    var x := Date(year, 2, 29);
    MonthTable(year);
    assert DayOfYear(x) == 60;
    OrdinalInYear(x);
    YearSpan(d.year, year - d.year);
    if year > d.year { YearSpan(d.year + 1, year - d.year - 1); }
    if year <= d.year + 7 { YearSpan(d.year, year + 1 - d.year); }
    DateOfOrdinal(x);
    k := ToOrdinal(x);
  }

  /** Any 8 * 366 consecutive days contain every month and day that the calendar has at all. */
  lemma MonthDayRecurs(n: int, month: int, day: int, year: int) returns (k: int)
    requires n >= 1 && ValidDate(Date(year, month, day))
    ensures n < k <= n + 8 * 366
    ensures DateOf(k).month == month && DateOf(k).day == day
  {
    if month == 2 && day == 29 {
      k := LeapDayRecurs(n);
    } else {
      k := CommonDayRecurs(n, month, day);
    }
  }

  // Every weekday occurs in every month, within the next two years.
  lemma WeekdayRecurs(n: int, month: int, weekday: int) returns (k: int)
    requires n >= 1 && 1 <= month <= 12 && 0 <= weekday <= 6
    ensures n < k <= n + 8 * 366
    ensures DateOf(k).month == month && CronWeekday(k) == weekday
  {
    var first := CommonDayRecurs(n, month, 1);
    k := first + (weekday - first) % 7;
    DaysIntoMonth(first, k - first);
  }

  lemma {:induction false} DaysIntoMonth(first: int, i: nat)
    requires first >= 1 && DateOf(first).day == 1 && i < 28
    ensures DateOf(first + i) == DateOf(first).(day := 1 + i)
  {
    if i > 0 { DaysIntoMonth(first, i - 1); }
  }

  // No 29 February lies strictly between those of 1896 and 1904.
  lemma LeapDayGap(d: Date)
    requires ValidDate(d) && d.month == 2 && d.day == 29
    ensures ToOrdinal(d) <= ToOrdinal(Date(1896, 2, 29)) || ToOrdinal(d) >= ToOrdinal(Date(1904, 2, 29))
  {
    OrdinalOrder(d, Date(1896, 2, 29));
    OrdinalOrder(Date(1904, 2, 29), d);
  }

  /** Seven times 366 days would not do: from 29 February 1896 it is 2921 days to the next one. */
  lemma SevenYearsAreTooFew(k: int)
    requires ToOrdinal(Date(1896, 2, 29)) < k <= ToOrdinal(Date(1896, 2, 29)) + 7 * 366
    ensures k >= 1 && !(DateOf(k).month == 2 && DateOf(k).day == 29)
  {
    assert DaysBeforeMonth(1896, 2) == DaysBeforeMonth(1904, 2) == 31;
    OrdinalOfDate(k);
    if DateOf(k).month == 2 && DateOf(k).day == 29 {
      LeapDayGap(DateOf(k));
    }
  }

  lemma LeapYearsRepeat(y: int)
    ensures IsLeap(y + 400) == IsLeap(y)
  {
    assert (y + 400) % 4 == y % 4;
    assert (y + 400) % 100 == y % 100;
    assert (y + 400) % 400 == y % 400;
  }

  /** Four centuries hold 97 leap days, in whole weeks: the calendar repeats, weekdays included. */
  lemma FourCenturies(y: int)
    ensures DaysBeforeYear(y + 400) == DaysBeforeYear(y) + 400 * 365 + 97
    ensures (400 * 365 + 97) % 7 == 0
  {
    assert (y + 399) / 4 == (y - 1) / 4 + 100;
    assert (y + 399) / 100 == (y - 1) / 100 + 4;
    assert (y + 399) / 400 == (y - 1) / 400 + 1;
  }

  // 1 March 2000 was a Wednesday, the day after 29 February; 1900 had no such day.
  lemma KnownDays()
    ensures ValidDate(Date(2000, 2, 29)) && !ValidDate(Date(1900, 2, 29)) && ValidDate(Date(2004, 2, 29))
    ensures ToOrdinal(Date(1970, 1, 1)) == 719_163 && CronWeekday(719_163) == 4
    ensures ToOrdinal(Date(2000, 3, 1)) == ToOrdinal(Date(2000, 2, 29)) + 1 == 730_180 && CronWeekday(730_180) == 3
  {
    assert DaysBeforeMonth(1970, 1) == 0;
    assert DaysBeforeMonth(2000, 2) == DaysBeforeMonth(2000, 1) + 31;
    assert DaysBeforeMonth(2000, 3) == DaysBeforeMonth(2000, 2) + 29;
  }

  // Thirty days have September, April, June and November.
  lemma MonthLengths(y: int, m: int)
    requires 1 <= m <= 12
    ensures DaysInMonth(y, m) == if m == 2 then (if IsLeap(y) then 29 else 28)
                                 else [31, 0, 31, 30, 31, 30, 31, 31, 30, 31, 30, 31][m - 1]
  {
  }
}
