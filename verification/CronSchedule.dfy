/**
 The next run of a parsed cron expression on a fixed-offset wall clock.
 Minutes are counted from day 0 of the calendar: minute `t` lies on day `t / 1440`.
 */
module CronSchedule {
  import opened Wrappers
  import opened Calendar

  const SEARCH_DAYS := 8 * 366
  const MICROSECONDS := 60_000_000

  datatype Parsed = Parsed(
    minutes: set<int>,
    hours: set<int>,
    days: set<int>,
    months: set<int>,
    weekdays: set<int>,
    dayRestricted: bool,
    weekdayRestricted: bool)

  // What parsing guarantees: see `CronField.ParseCron`.
  ghost predicate WellFormed(p: Parsed) {
    && (exists v :: v in p.minutes) && (forall v :: v in p.minutes ==> 0 <= v <= 59)
    && (exists v :: v in p.hours) && (forall v :: v in p.hours ==> 0 <= v <= 23)
    && (forall v :: v in p.days ==> 1 <= v <= 31)
    && (forall v :: v in p.months ==> 1 <= v <= 12)
    && (!p.dayRestricted ==> forall v :: 1 <= v <= 31 ==> v in p.days)
    && (!p.weekdayRestricted ==> forall v :: 0 <= v <= 6 ==> v in p.weekdays)
  }

  // `_cron_day_matches`
  predicate DayMatches(p: Parsed, day: int, weekday: int) {
    var dayMatches := day in p.days;
    var weekdayMatches := weekday in p.weekdays;
    if p.dayRestricted && p.weekdayRestricted then dayMatches || weekdayMatches
    else dayMatches && weekdayMatches
  }

  predicate DateMatches(p: Parsed, n: int)
    requires n >= 1
  {
    DateOf(n).month in p.months && DayMatches(p, DateOf(n).day, CronWeekday(n))
  }

  // The `i`-th minute of a day is a configured time of day.
  predicate IsSlot(p: Parsed, i: int) {
    i / 60 in p.hours && i % 60 in p.minutes
  }

  // The minute satisfies every field of the expression.
  predicate Matches(p: Parsed, t: int)
    requires t >= 1440
  {
    DateMatches(p, t / 1440) && IsSlot(p, t % 1440)
  }

  // ---------------------------------------------------------------- the search window is complete

  // If any date at all matches, one does within the next 8 * 366 days.
  lemma WindowComplete(p: Parsed, example: int, n: int) returns (k: int)
    requires WellFormed(p) && example >= 1 && n >= 1 && DateMatches(p, example)
    ensures n < k <= n + SEARCH_DAYS && DateMatches(p, k)
  {
    var d := DateOf(example);
    if d.day in p.days && (p.dayRestricted || !p.weekdayRestricted) {
      k := MonthDayRecurs(n, d.month, d.day, d.year);
      assert 0 <= CronWeekday(k) <= 6;
    } else {
      k := WeekdayRecurs(n, d.month, CronWeekday(example));
      assert 1 <= DateOf(k).day <= 31;
    }
  }

  // ---------------------------------------------------------------- slots of one day

  // The least configured time of day that is not before `start`, hour by hour and minute by minute.
  method FirstSlot(p: Parsed, start: int) returns (r: Option<int>)
    ensures r.Some? ==> 0 <= r.value < 1440 && start <= r.value && IsSlot(p, r.value)
    ensures forall i :: 0 <= i < 1440 && start <= i && IsSlot(p, i) ==> r.Some? && r.value <= i
  {
    var hour := 0;
    while hour < 24
      invariant 0 <= hour <= 24
      invariant forall i :: 0 <= i < 60 * hour && start <= i ==> !IsSlot(p, i)
    {
      var minute := 0;
      while minute < 60 && hour in p.hours
        invariant 0 <= minute <= 60
        invariant forall i :: 0 <= i < 60 * hour + minute && start <= i ==> !IsSlot(p, i)
      {
        var proposed := 60 * hour + minute;
        assert proposed / 60 == hour && proposed % 60 == minute;
        if minute in p.minutes && proposed >= start {
          return Some(proposed);
        }
        minute := minute + 1;
      }
      assert forall i :: 60 * hour <= i < 60 * hour + 60 ==> i / 60 == hour;
      hour := hour + 1;
    }
    r := None;
  }

  // On a given day, a minute matches exactly when the date does and it is a configured time.
  lemma DaySlots(p: Parsed, n: int, t: int)
    requires n >= 1 && n * 1440 <= t < n * 1440 + 1440
    ensures Matches(p, t) <==> DateMatches(p, n) && IsSlot(p, t - n * 1440)
  {
  }

  lemma SomeSlotExists(p: Parsed)
    requires WellFormed(p)
    ensures exists i :: 0 <= i < 1440 && IsSlot(p, i)
  {
    var hour :| hour in p.hours;
    var minute :| minute in p.minutes;
    var i := 60 * hour + minute;
    assert i / 60 == hour && i % 60 == minute;
    assert IsSlot(p, i);
  }

  // `value` is the least whole minute strictly after `after` that matches.
  ghost predicate IsNextRun(p: Parsed, after: int, offset: int, value: int) {
    var t := (value + offset) / MICROSECONDS;
    && value == t * MICROSECONDS - offset && value > after
    && t >= 1440 && Matches(p, t)
    && forall u :: u < t && u * MICROSECONDS > after + offset ==> u >= 1440 && !Matches(p, u)
  }

  // A match that no match between the first minute after `after` and it precedes is the answer.
  lemma LeastMinute(p: Parsed, after: int, offset: int, m: int)
    requires after + offset >= 1440 * MICROSECONDS
    requires m >= (after + offset) / MICROSECONDS + 1 && Matches(p, m)
    requires forall t :: (after + offset) / MICROSECONDS + 1 <= t < m ==> !Matches(p, t)
    ensures IsNextRun(p, after, offset, m * MICROSECONDS - offset)
  {
  }

  lemma DaySearched(p: Parsed, n: int, candidate: int, slot: Option<int>)
    requires n >= 1 && candidate >= 1440 && DateMatches(p, n)
    requires slot.Some? ==> 0 <= slot.value < 1440 && candidate - n * 1440 <= slot.value && IsSlot(p, slot.value)
    requires forall i :: 0 <= i < 1440 && candidate - n * 1440 <= i && IsSlot(p, i) ==> slot.Some? && slot.value <= i
    ensures slot.Some? ==> Matches(p, n * 1440 + slot.value)
    ensures forall t :: candidate <= t && n * 1440 <= t < n * 1440 + (if slot.Some? then slot.value else 1440) ==>
              !Matches(p, t)
  {
    hide IsSlot, DateMatches, Matches;
    if slot.Some? { DaySlots(p, n, n * 1440 + slot.value); }
    forall t | candidate <= t && n * 1440 <= t < n * 1440 + (if slot.Some? then slot.value else 1440)
      ensures !Matches(p, t)
    {
      DaySlots(p, n, t);
    }
  }

  lemma DaySkipped(p: Parsed, n: int)
    requires n >= 1 && !DateMatches(p, n)
    ensures forall t :: n * 1440 <= t < n * 1440 + 1440 ==> !Matches(p, t)
  {
  }

  // A window without a match means that no date matches at all.
  lemma NothingFurther(p: Parsed, first: int, n: int)
    requires WellFormed(p) && first >= 1 && n > first + SEARCH_DAYS
    requires forall k :: first < k < n ==> !DateMatches(p, k)
    ensures forall w :: w >= 1 ==> !DateMatches(p, w)
  {
    hide WellFormed, DateMatches;
    forall w | w >= 1 ensures !DateMatches(p, w) {
      if DateMatches(p, w) {
        var k := WindowComplete(p, w, first);
      }
    }
  }

  /**
   `_get_next_cron_run` in a zone with a fixed offset, times in microseconds.
   The result is the least whole minute strictly after `after` that matches; the search fails
   exactly when no date of the calendar matches the day and month fields.
   */
  method GetNextRun(p: Parsed, after: int, offset: int) returns (r: Option<int>)
    requires WellFormed(p)
    requires after + offset >= 1440 * MICROSECONDS
    ensures r.Some? ==> IsNextRun(p, after, offset, r.value)
    ensures r.None? <==> forall n :: n >= 1 ==> !DateMatches(p, n)
  {
    var candidate := (after + offset) / MICROSECONDS + 1;
    var searchEnd := candidate + SEARCH_DAYS * 1440;
    var n := candidate / 1440;
    var date := DateOf(n);
    ghost var first := n;
    SomeSlotExists(p);
    hide Matches, IsSlot, DateOf, CronWeekday, WellFormed, IsNextRun, NextDay;
    while n * 1440 <= searchEnd
      invariant 1 <= first <= n && date == DateOf(n)
      invariant first * 1440 <= candidate < first * 1440 + 1440
      invariant forall t :: candidate <= t < n * 1440 ==> !Matches(p, t)
      invariant forall k :: first < k < n ==> !DateMatches(p, k)
      decreases searchEnd - n * 1440
    {
      if date.month in p.months && DayMatches(p, date.day, CronWeekday(n)) {
        var slot := FirstSlot(p, candidate - n * 1440);
        DaySearched(p, n, candidate, slot);
        if slot.Some? {
          LeastMinute(p, after, offset, n * 1440 + slot.value);
          return Some((n * 1440 + slot.value) * MICROSECONDS - offset);
        }
      } else {
        DaySkipped(p, n);
      }
      date := NextDay(date);
      n := n + 1;
    }
    NothingFurther(p, first, n);
    r := None;
  }
}
