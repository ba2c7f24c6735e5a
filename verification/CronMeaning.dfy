/** What a whole cron expression means, from the pieces its five fields are written with. */
module CronMeaning {
  import opened Wrappers
  import opened Calendar
  import opened CronField
  import opened CronExpression
  import G = CronGrammar

  // A field is the question mark or a list of items.
  datatype Field = Question | Items(items: seq<G.Item>)

  predicate IsField(f: Field) {
    f.Items? ==>
      && |f.items| >= 1 && (forall j :: 0 <= j < |f.items| ==> G.IsItem(f.items[j]))
      && G.FieldText(f.items) != "?"
  }

  function Text(f: Field): string
    requires IsField(f)
  {
    if f.Question? then "?" else G.FieldText(f.items)
  }

  // Minute, hour, day, month, weekday.
  function SpecOf(i: nat): FieldSpec
    requires i < 5
  {
    [MinuteSpec, HourSpec, DaySpec, MonthSpec, WeekdaySpec][i]
  }

  predicate IsText(fields: seq<Field>) {
    |fields| == 5 && forall i :: 0 <= i < 5 ==> IsField(fields[i])
  }

  function Texts(fields: seq<Field>): (r: seq<string>)
    requires IsText(fields)
    ensures |r| == 5
  {
    [Text(fields[0]), Text(fields[1]), Text(fields[2]), Text(fields[3]), Text(fields[4])]
  }

  // Only the day and weekday fields may be a question mark; every item has to be usable.
  ghost predicate FieldAccepted(fields: seq<Field>, i: nat, parseInt: IntParser)
    requires IsText(fields) && i < 5
  {
    match fields[i]
    case Question => i == 2 || i == 4
    case Items(items) => forall j :: 0 <= j < |items| ==> G.Usable(items[j], SpecOf(i), parseInt)
  }

  // Some item of field `i` means `v`.
  ghost predicate Holds(fields: seq<Field>, i: nat, v: int, parseInt: IntParser)
    requires IsText(fields) && i < 5
  {
    match fields[i]
    case Question => true
    case Items(items) => exists j :: 0 <= j < |items| && G.Means(items[j], v, SpecOf(i), parseInt)
  }

  predicate SaysNothing(f: Field) {
    f == Question || f == Items([G.Item(G.Star, None)])
  }

  predicate NoWordLetters(s: string) {
    'L' !in s && 'l' !in s && 'W' !in s && 'w' !in s && '#' !in s
  }

  // ---------------------------------------------------------------- one field

  lemma QuestionRefused(spec: FieldSpec, parseInt: IntParser)
    requires !spec.allowQuestion && "?" !in spec.names && parseInt("?").None?
    ensures !WellFormedField("?", spec, parseInt)
  {
    G.SplitPlain("?", ',');
    assert Upper("?") == "?";
    assert '/' !in "?" && '-' !in "?";
    assert ParsePart("?", spec, parseInt).None?;
    assert Split("?", ',')[0] == "?";
  }

  lemma FieldIsAccepted(fields: seq<Field>, i: nat, parseInt: IntParser)
    requires IsText(fields) && i < 5 && parseInt("?").None?
    ensures WellFormedField(Texts(fields)[i], SpecOf(i), parseInt) <==> FieldAccepted(fields, i, parseInt)
  {
    match fields[i]
    case Question =>
      if i != 2 && i != 4 {
        assert "?" !in MonthNames;
        QuestionRefused(SpecOf(i), parseInt);
      }
    case Items(items) =>
      hide G.IsItem, G.Usable, WellFormedField;
      G.FieldMeaning(items, SpecOf(i), parseInt);
  }

  // On the values a date or a time can have, a field denotes what one of its items means.
  lemma FieldIsHeld(fields: seq<Field>, i: nat, v: int, parseInt: IntParser)
    requires IsText(fields) && i < 5 && SpecOf(i).minimum <= v <= SpecOf(i).maximum
    requires fields[i].Question? ==> i == 2 || i == 4
    ensures Denotes(Texts(fields)[i], v, SpecOf(i), parseInt) <==> Holds(fields, i, v, parseInt)
  {
    if fields[i].Items? {
      hide G.IsItem, G.Means, Denotes;
      G.FieldMeaning(fields[i].items, SpecOf(i), parseInt);
    }
  }

  // A star is the only text without pieces that leaves the field unrestricted.
  lemma StarText(f: Field)
    requires IsField(f)
    ensures Restricts(Text(f)) <==> !SaysNothing(f)
  {
    if f.Items? {
      G.ItemsAreParts(f.items);
      if G.FieldText(f.items) == "*" {
        G.SplitPlain("*", ',');
        assert G.Texts(f.items) == ["*"];
        G.PiecesFound(f.items[0]);
        assert G.ItemText(f.items[0]) == G.Texts(f.items)[0] == "*";
        assert f.items == [G.Item(G.Star, None)];
      }
      if SaysNothing(f) {
        assert G.Texts(f.items) == ["*"];
      }
    }
  }

  lemma StarHolds(fields: seq<Field>, i: nat, v: int, parseInt: IntParser)
    requires IsText(fields) && i < 5 && SaysNothing(fields[i])
    requires SpecOf(i).minimum <= v <= SpecOf(i).maximum && (i == 4 ==> v != 7)
    ensures Holds(fields, i, v, parseInt)
  {
    if fields[i].Items? {
      var spec := SpecOf(i);
      assert G.Runs(fields[i].items[0], spec.minimum, spec.maximum, 1, spec, parseInt);
      assert G.Hits(spec.minimum, spec.maximum, 1, v) && v == G.ZeroSunday(v, spec);
      assert G.Means(fields[i].items[0], v, spec, parseInt);
    }
  }

  // ---------------------------------------------------------------- whole expressions

  lemma LettersCheck(fields: seq<Field>)
    requires IsText(fields)
    ensures UnsupportedSyntax(Texts(fields)) <==> exists i :: 0 <= i < 5 && !NoWordLetters(Texts(fields)[i])
  {
    hide Text;
    G.SyntaxCheck(Texts(fields));
    if UnsupportedSyntax(Texts(fields)) {
      var i, c :| 0 <= i < 5 && c in "LlWw#" && c in Texts(fields)[i];
      assert !NoWordLetters(Texts(fields)[i]);
    }
    if i :| 0 <= i < 5 && !NoWordLetters(Texts(fields)[i]) {
      assert "LlWw#" == ['L', 'l', 'W', 'w', '#'];
      var c :| c in ['L', 'l', 'W', 'w', '#'] && c in Texts(fields)[i];
    }
  }

  /**
   The expressions that parse: no letter L or W and no number sign, a question mark for the day or
   the weekday but not for both, and items that are usable within the bounds of their field.
   */
  lemma ExpressionsAccepted(fields: seq<Field>, parseInt: IntParser)
    requires IsText(fields) && parseInt("?").None?
    ensures IsExpression(Texts(fields), parseInt)
       <==> && (forall i :: 0 <= i < 5 ==> NoWordLetters(Texts(fields)[i]))
            && !(fields[2].Question? && fields[4].Question?)
            && forall i :: 0 <= i < 5 ==> FieldAccepted(fields, i, parseInt)
  {
    LettersCheck(fields);
    forall i | 0 <= i < 5
      ensures WellFormedField(Texts(fields)[i], SpecOf(i), parseInt) <==> FieldAccepted(fields, i, parseInt)
    {
      FieldIsAccepted(fields, i, parseInt);
    }
    hide UnsupportedSyntax, WellFormedField, FieldAccepted, NoWordLetters;
    assert SpecOf(0) == MinuteSpec && SpecOf(1) == HourSpec && SpecOf(2) == DaySpec;
    assert SpecOf(3) == MonthSpec && SpecOf(4) == WeekdaySpec;
  }

  /**
   The day rule: a day or weekday field that says nothing leaves the choice to the other one, and
   when both say something a date that either of them holds will do.
   */
  lemma DayRule(fields: seq<Field>, day: int, weekday: int, parseInt: IntParser)
    requires IsText(fields) && 1 <= day <= 31 && 0 <= weekday <= 6
    ensures SaysNothing(fields[2]) ==>
              (DayDenoted(Texts(fields), parseInt, day, weekday) <==> Holds(fields, 4, weekday, parseInt))
    ensures SaysNothing(fields[4]) ==>
              (DayDenoted(Texts(fields), parseInt, day, weekday) <==> Holds(fields, 2, day, parseInt))
    ensures !SaysNothing(fields[2]) && !SaysNothing(fields[4]) ==>
              (DayDenoted(Texts(fields), parseInt, day, weekday)
               <==> Holds(fields, 2, day, parseInt) || Holds(fields, 4, weekday, parseInt))
  {
    StarText(fields[2]);
    StarText(fields[4]);
    FieldIsHeld(fields, 2, day, parseInt);
    FieldIsHeld(fields, 4, weekday, parseInt);
    if SaysNothing(fields[2]) { StarHolds(fields, 2, day, parseInt); }
    if SaysNothing(fields[4]) { StarHolds(fields, 4, weekday, parseInt); }
    hide Holds, Denotes, Restricts, SaysNothing, IsField;
  }

  lemma TimeOfDay(t: int)
    requires t >= 1440
    ensures t % 1440 % 60 == t % 60 && t % 1440 / 60 == t / 60 % 24
    ensures 0 <= t % 60 <= 59 && 0 <= t / 60 % 24 <= 23 && t / 1440 >= 1
  {
  }

  /** Minute `t` is due when its minute, hour and month are held and its date meets the day rule. */
  lemma MinuteMeaning(fields: seq<Field>, t: int, parseInt: IntParser)
    requires IsText(fields) && t >= 1440
    requires fields[0].Items? && fields[1].Items? && fields[3].Items?
    ensures MinuteDenoted(Texts(fields), parseInt, t)
       <==> && Holds(fields, 0, t % 60, parseInt)
            && Holds(fields, 1, t / 60 % 24, parseInt)
            && Holds(fields, 3, DateOf(t / 1440).month, parseInt)
            && DayDenoted(Texts(fields), parseInt, DateOf(t / 1440).day, CronWeekday(t / 1440))
  {
    TimeOfDay(t);
    hide Holds, Denotes, DayDenoted, CronWeekday, Text;
    var n, minute, hour := t / 1440, t % 60, t / 60 % 24;
    var date := DateOf(n);
    assert ValidDate(date);
    FieldIsHeld(fields, 0, minute, parseInt);
    FieldIsHeld(fields, 1, hour, parseInt);
    FieldIsHeld(fields, 3, date.month, parseInt);
  }

  lemma OnlyMinutes(minutes: string, t: int, parseInt: IntParser)
    requires t >= 1440
    ensures MinuteDenoted([minutes, "*", "*", "*", "*"], parseInt, t) <==> Denotes(minutes, t % 60, MinuteSpec, parseInt)
  {
    G.StarBounds(parseInt);
    TimeOfDay(t);
    hide Denotes, CronWeekday;
    var n := t / 1440;
    assert ValidDate(DateOf(n)) && 0 <= CronWeekday(n) <= 6;
  }

  /** A step over the minutes and stars elsewhere: every `k`-th minute of each hour. */
  lemma EveryKthMinute(step: string, k: int, t: int, parseInt: IntParser)
    requires ',' !in step && parseInt(step) == Some(k) && k > 0 && t >= 1440
    ensures MinuteDenoted(["*/" + step, "*", "*", "*", "*"], parseInt, t) <==> t % 60 % k == 0
  {
    G.EveryKth(step, k, MinuteSpec, parseInt);
    hide Denotes, MinuteDenoted;
    OnlyMinutes("*/" + step, t, parseInt);
  }
}
