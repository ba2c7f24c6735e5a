/** From the five fields of a cron expression to its next run, on a fixed-offset wall clock. */
module CronExpression {
  import opened Wrappers
  import opened Calendar
  import opened CronSchedule
  import opened CronField

  // The day rule on the text: either field suffices when both say something.
  ghost predicate DayDenoted(fields: seq<string>, parseInt: IntParser, day: int, weekday: int)
    requires |fields| == 5
  {
    var byDay := Denotes(fields[2], day, DaySpec, parseInt);
    var byWeekday := Denotes(fields[4], weekday, WeekdaySpec, parseInt);
    if Restricts(fields[2]) && Restricts(fields[4]) then byDay || byWeekday else byDay && byWeekday
  }

  ghost predicate DateDenoted(fields: seq<string>, parseInt: IntParser, n: int)
    requires |fields| == 5 && n >= 1
  {
    && Denotes(fields[3], DateOf(n).month, MonthSpec, parseInt)
    && DayDenoted(fields, parseInt, DateOf(n).day, CronWeekday(n))
  }

  // Minute `t` is one at which the expression says to run.
  ghost predicate MinuteDenoted(fields: seq<string>, parseInt: IntParser, t: int)
    requires |fields| == 5 && t >= 1440
  {
    && DateDenoted(fields, parseInt, t / 1440)
    && Denotes(fields[1], t % 1440 / 60, HourSpec, parseInt)
    && Denotes(fields[0], t % 1440 % 60, MinuteSpec, parseInt)
  }

  datatype Error = InvalidExpression | NoMatchingRun

  // The parsed sets and flags are those that the fields denote.
  ghost predicate Reads(p: Parsed, fields: seq<string>, parseInt: IntParser)
    requires |fields| == 5
  {
    && (p.dayRestricted <==> Restricts(fields[2])) && (p.weekdayRestricted <==> Restricts(fields[4]))
    && forall v ::
         && (v in p.minutes <==> Denotes(fields[0], v, MinuteSpec, parseInt))
         && (v in p.hours <==> Denotes(fields[1], v, HourSpec, parseInt))
         && (v in p.days <==> Denotes(fields[2], v, DaySpec, parseInt))
         && (v in p.months <==> Denotes(fields[3], v, MonthSpec, parseInt))
         && (v in p.weekdays <==> Denotes(fields[4], v, WeekdaySpec, parseInt))
  }

  lemma DatesAreDenoted(p: Parsed, fields: seq<string>, parseInt: IntParser)
    requires |fields| == 5 && Reads(p, fields, parseInt)
    ensures forall n :: n >= 1 ==> (DateMatches(p, n) <==> DateDenoted(fields, parseInt, n))
  {
    hide Denotes, DateOf, CronWeekday;
  }

  lemma MatchesIsDenoted(p: Parsed, fields: seq<string>, parseInt: IntParser)
    requires |fields| == 5 && Reads(p, fields, parseInt)
    ensures forall t :: t >= 1440 ==> (Matches(p, t) <==> MinuteDenoted(fields, parseInt, t))
  {
    DatesAreDenoted(p, fields, parseInt);
    hide Denotes, DateMatches, DateDenoted;
  }

  // `value` is the least whole minute strictly after `after` that the text denotes.
  ghost predicate IsNextDenoted(fields: seq<string>, parseInt: IntParser, after: int, offset: int, value: int)
    requires |fields| == 5
  {
    var t := (value + offset) / MICROSECONDS;
    && value == t * MICROSECONDS - offset && value > after
    && t >= 1440 && MinuteDenoted(fields, parseInt, t)
    && forall u :: u < t && u * MICROSECONDS > after + offset ==> u >= 1440 && !MinuteDenoted(fields, parseInt, u)
  }

  lemma NextRunIsDenoted(p: Parsed, fields: seq<string>, parseInt: IntParser, after: int, offset: int, value: int)
    requires |fields| == 5 && Reads(p, fields, parseInt) && IsNextRun(p, after, offset, value)
    ensures IsNextDenoted(fields, parseInt, after, offset, value)
  {
    MatchesIsDenoted(p, fields, parseInt);
    hide Reads, Matches, MinuteDenoted;
  }

  /**
   The next run of an expression, from its fields: the least whole minute strictly after `after`
   that the text denotes. An ill-formed expression is refused, and the search fails exactly when
   the text denotes no date of the calendar.
   */
  method NextCronRun(fields: seq<string>, parseInt: IntParser, after: int, offset: int)
    returns (r: Result<int, Error>)
    requires after + offset >= 1440 * MICROSECONDS
    ensures r == Failure(InvalidExpression) <==> !IsExpression(fields, parseInt)
    ensures r == Failure(NoMatchingRun) <==>
              IsExpression(fields, parseInt) && forall n :: n >= 1 ==> !DateDenoted(fields, parseInt, n)
    ensures r.Success? ==> |fields| == 5 && IsNextDenoted(fields, parseInt, after, offset, r.value)
  {
    var parsed := ParseCron(fields, parseInt);
    if parsed.None? {
      return Failure(InvalidExpression);
    }
    assert |fields| == 5 && Reads(parsed.value, fields, parseInt);
    hide Reads, Matches, DateMatches, DateDenoted, WellFormed, Denotes, IsNextRun, IsNextDenoted;
    var run := GetNextRun(parsed.value, after, offset);
    DatesAreDenoted(parsed.value, fields, parseInt);
    if run.None? {
      return Failure(NoMatchingRun);
    }
    NextRunIsDenoted(parsed.value, fields, parseInt, after, offset, run.value);
    r := Success(run.value);
  }
}
