/**
 Parsing of cron fields. Fields come out of a whitespace split, so stripping them does nothing;
 `int()` on a text is the parameter `parseInt`, which is `None` where Python raises.
 */
module CronField {
  import opened Wrappers
  import opened CronSchedule

  // ---------------------------------------------------------------- text

  function UpperChar(c: char): char {
    if 'a' <= c <= 'z' then ((c as int) - 32) as char else c
  }

  function Upper(s: string): string {
    seq(|s|, i requires 0 <= i < |s| => UpperChar(s[i]))
  }

  // `s.split(separator)`: the parts between separators, at least one.
  function Split(s: string, separator: char): (parts: seq<string>)
    ensures |parts| >= 1
  {
    if s == "" then [""]
    else
      var rest := Split(s[1..], separator);
      if s[0] == separator then [""] + rest
      else [[s[0]] + rest[0]] + rest[1..]
  }

  function Join(parts: seq<string>, separator: char): string
    requires |parts| >= 1
  {
    if |parts| == 1 then parts[0] else parts[0] + [separator] + Join(parts[1..], separator)
  }

  // Splitting loses nothing, and no part contains the separator.
  lemma {:induction false} SplitJoins(s: string, separator: char)
    ensures Join(Split(s, separator), separator) == s
    ensures forall i :: 0 <= i < |Split(s, separator)| ==> separator !in Split(s, separator)[i]
  {
    if s != "" {
      SplitJoins(s[1..], separator);
      var rest := Split(s[1..], separator);
      if s[0] == separator {
        assert ([""] + rest)[1..] == rest;
        assert s == "" + [separator] + s[1..];
      } else {
        var parts := [[s[0]] + rest[0]] + rest[1..];
        if |rest| > 1 {
          assert parts[1..] == rest[1..];
          assert s == [s[0]] + (rest[0] + [separator] + Join(rest[1..], separator));
        } else {
          assert s == [s[0]] + rest[0];
        }
      }
    }
  }

  // `s.split(separator, 1)` for a text that contains the separator.
  function SplitOnce(s: string, separator: char): (string, string)
    requires separator in s
  {
    if s[0] == separator then ("", s[1..])
    else
      var (before, after) := SplitOnce(s[1..], separator);
      ([s[0]] + before, after)
  }

  // ---------------------------------------------------------------- one part of a field

  datatype FieldSpec = FieldSpec(
    minimum: int,
    maximum: int,
    names: map<string, int>,
    normalizeSunday: bool,
    allowQuestion: bool)

  type IntParser = string -> Option<int>

  datatype Range = Range(start: int, end: int, step: int) {
    predicate Contains(v: int)
      requires step > 0
    {
      start <= v <= end && (v - start) % step == 0
    }
  }

  // `_parse_cron_value`
  function ParseValue(value: string, names: map<string, int>, parseInt: IntParser): Option<int> {
    if Upper(value) in names then Some(names[Upper(value)]) else parseInt(value)
  }

  function Bounded(start: Option<int>, end: Option<int>, step: int, spec: FieldSpec): Option<Range> {
    if start.None? || end.None? || start.value > end.value then None
    else if spec.minimum <= start.value <= spec.maximum && spec.minimum <= end.value <= spec.maximum then
      Some(Range(start.value, end.value, step))
    else None
  }

  // The range a part stands for, or `None` where the parser raises.
  function ParsePart(part: string, spec: FieldSpec, parseInt: IntParser): (r: Option<Range>)
    ensures r.Some? ==> r.value.step > 0 && spec.minimum <= r.value.start <= r.value.end <= spec.maximum
  {
    if part == "" then None
    else
      var stepped := '/' in part;
      var range := if stepped then SplitOnce(part, '/').0 else part;
      var step := if stepped then parseInt(SplitOnce(part, '/').1) else Some(1);
      if step.None? || step.value <= 0 then None
      else if range == "*" then Bounded(Some(spec.minimum), Some(spec.maximum), step.value, spec)
      else if '-' in range then
        var (low, high) := SplitOnce(range, '-');
        Bounded(ParseValue(low, spec.names, parseInt), ParseValue(high, spec.names, parseInt), step.value, spec)
      else
        var start := ParseValue(range, spec.names, parseInt);
        Bounded(start, if stepped then Some(spec.maximum) else start, step.value, spec)
  }

  // `v` lies in some part of the list.
  ghost predicate Listed(parts: seq<string>, v: int, spec: FieldSpec, parseInt: IntParser) {
    exists i :: 0 <= i < |parts| && Covers(parts[i], v, spec, parseInt)
  }

  predicate Covers(part: string, v: int, spec: FieldSpec, parseInt: IntParser) {
    ParsePart(part, spec, parseInt).Some? && ParsePart(part, spec, parseInt).value.Contains(v)
  }

  // What a field denotes: the union of its parts, with 7 read as 0 for weekdays.
  ghost predicate Denotes(field: string, v: int, spec: FieldSpec, parseInt: IntParser) {
    var parts := Split(field, ',');
    if spec.allowQuestion && field == "?" then spec.minimum <= v <= spec.maximum
    else if spec.normalizeSunday then
      (v != 7 && Listed(parts, v, spec, parseInt)) || (v == 0 && Listed(parts, 7, spec, parseInt))
    else Listed(parts, v, spec, parseInt)
  }

  ghost predicate WellFormedField(field: string, spec: FieldSpec, parseInt: IntParser) {
    || (spec.allowQuestion && field == "?")
    || forall i :: 0 <= i < |Split(field, ',')| ==> ParsePart(Split(field, ',')[i], spec, parseInt).Some?
  }

  // ---------------------------------------------------------------- expansion

  lemma AtLeastOnce(k: int, d: int)
    requires k >= 1 && d > 0
    ensures k * d >= d
  {
  }

  // Division with remainder has one answer.
  lemma DivisionUnique(x: int, d: int, q: int, r: int)
    requires d > 0 && 0 <= r < d && x == q * d + r
    ensures x % d == r
  {
    var p := x / d;
    assert x == p * d + x % d;
    if p > q { AtLeastOnce(p - q, d); }
    if p < q { AtLeastOnce(q - p, d); }
  }

  // `values.update(range(start, end + 1, step))`
  method AddRange(values: set<int>, r: Range) returns (updated: set<int>)
    requires r.step > 0
    ensures forall v :: v in updated <==> v in values || r.Contains(v)
  {
    updated := values;
    var v := r.start;
    ghost var k := 0;
    while v <= r.end
      invariant k >= 0 && v == r.start + k * r.step
      invariant forall u :: u in updated <==> u in values || (u < v && r.Contains(u))
    {
      forall u | v <= u < v + r.step ensures r.Contains(u) <==> u == v {
        DivisionUnique(u - r.start, r.step, k, u - v);
      }
      updated := updated + {v};
      assert (k + 1) * r.step == k * r.step + r.step;
      v, k := v + r.step, k + 1;
    }
  }

  lemma ListedOneMore(parts: seq<string>, i: nat, v: int, spec: FieldSpec, parseInt: IntParser)
    requires i < |parts|
    ensures Listed(parts[..i + 1], v, spec, parseInt)
       <==> Listed(parts[..i], v, spec, parseInt) || Covers(parts[i], v, spec, parseInt)
  {
  }

  lemma CoversItsRange(part: string, spec: FieldSpec, parseInt: IntParser)
    requires ParsePart(part, spec, parseInt).Some?
    ensures var range := ParsePart(part, spec, parseInt).value;
            && range.Contains(range.start)
            && forall v :: Covers(part, v, spec, parseInt) <==> range.Contains(v)
  {
  }

  // `values` is the union of the first `i` parts, each of them a range of the field.
  ghost predicate UnionOf(values: set<int>, parts: seq<string>, i: nat, spec: FieldSpec, parseInt: IntParser) {
    && i <= |parts|
    && (forall k :: 0 <= k < i ==> ParsePart(parts[k], spec, parseInt).Some?)
    && (forall v :: v in values <==> Listed(parts[..i], v, spec, parseInt))
    && (i > 0 ==> exists v :: v in values)
  }

  lemma UnionOfNone(parts: seq<string>, spec: FieldSpec, parseInt: IntParser)
    ensures UnionOf({}, parts, 0, spec, parseInt)
  {
  }

  lemma UnionOfOneMore(values: set<int>, updated: set<int>, parts: seq<string>, i: nat, spec: FieldSpec,
                       parseInt: IntParser)
    requires UnionOf(values, parts, i, spec, parseInt) && i < |parts|
    requires ParsePart(parts[i], spec, parseInt).Some?
    requires forall v :: v in updated <==> v in values || ParsePart(parts[i], spec, parseInt).value.Contains(v)
    ensures UnionOf(updated, parts, i + 1, spec, parseInt)
  {
    CoversItsRange(parts[i], spec, parseInt);
    hide Listed, Covers, ParsePart;
    forall v ensures v in updated <==> Listed(parts[..i + 1], v, spec, parseInt) {
      ListedOneMore(parts, i, v, spec, parseInt);
    }
    assert ParsePart(parts[i], spec, parseInt).value.start in updated;
  }

  lemma UnionOfAll(values: set<int>, parts: seq<string>, spec: FieldSpec, parseInt: IntParser)
    requires UnionOf(values, parts, |parts|, spec, parseInt)
    ensures forall k :: 0 <= k < |parts| ==> ParsePart(parts[k], spec, parseInt).Some?
    ensures forall v :: v in values <==> Listed(parts, v, spec, parseInt)
    ensures |parts| > 0 ==> exists v :: v in values
  {
  }

  // The union over the parts of a list, or nothing when some part is not a range of the field.
  method ExpandParts(parts: seq<string>, spec: FieldSpec, parseInt: IntParser) returns (r: Option<set<int>>)
    requires |parts| >= 1
    ensures r.Some? <==> forall i :: 0 <= i < |parts| ==> ParsePart(parts[i], spec, parseInt).Some?
    ensures r.Some? ==> forall v :: v in r.value <==> Listed(parts, v, spec, parseInt)
    ensures r.Some? ==> exists v :: v in r.value
  {
    hide *;
    var values: set<int> := {};
    UnionOfNone(parts, spec, parseInt);
    for i := 0 to |parts|
      invariant UnionOf(values, parts, i, spec, parseInt)
    {
      var range := ParsePart(parts[i], spec, parseInt);
      if range.None? {
        return None;
      }
      var updated := AddRange(values, range.value);
      UnionOfOneMore(values, updated, parts, i, spec, parseInt);
      values := updated;
    }
    UnionOfAll(values, parts, spec, parseInt);
    r := Some(values);
  }

  /**
   `_expand_cron_field`: exactly the denoted values, never empty, in range; it fails exactly when
   some part of the list is not a range of the field.
   */
  method ExpandCronField(field: string, spec: FieldSpec, parseInt: IntParser) returns (r: Option<set<int>>)
    requires spec.minimum <= spec.maximum
    ensures r.Some? <==> WellFormedField(field, spec, parseInt)
    ensures r.Some? ==> forall v :: v in r.value <==> Denotes(field, v, spec, parseInt)
    ensures r.Some? ==> exists v :: v in r.value
    ensures r.Some? ==> forall v :: v in r.value ==>
              spec.minimum <= v <= spec.maximum || (spec.normalizeSunday && v == 0)
  {
    if spec.allowQuestion && field == "?" {
      var range := Range(spec.minimum, spec.maximum, 1);
      assert range.Contains(spec.minimum);
      var all := AddRange({}, range);
      assert spec.minimum in all;
      return Some(all);
    }
    r := ExpandParts(Split(field, ','), spec, parseInt);
    if r.Some? && spec.normalizeSunday && 7 in r.value {
      r := Some(r.value - {7} + {0});
      assert 0 in r.value;
    }
  }

  // ---------------------------------------------------------------- whole expressions

  const MonthNames: map<string, int> :=
    map["APR" := 4, "AUG" := 8, "DEC" := 12, "FEB" := 2, "JAN" := 1, "JUL" := 7,
        "JUN" := 6, "MAR" := 3, "MAY" := 5, "NOV" := 11, "OCT" := 10, "SEP" := 9]

  const WeekdayNames: map<string, int> :=
    map["FRI" := 5, "MON" := 1, "SAT" := 6, "SUN" := 0, "THU" := 4, "TUE" := 2, "WED" := 3]

  const MinuteSpec := FieldSpec(0, 59, map[], false, false)
  const HourSpec := FieldSpec(0, 23, map[], false, false)
  const DaySpec := FieldSpec(1, 31, map[], false, true)
  const MonthSpec := FieldSpec(1, 12, MonthNames, false, false)
  const WeekdaySpec := FieldSpec(0, 7, WeekdayNames, true, true)

  // `_raise_for_unsupported_cron_syntax`, but for the `@reboot` alias.
  predicate UnsupportedSyntax(fields: seq<string>) {
    || |fields| > 5
    || exists i :: 0 <= i < |fields| && ('L' in Upper(fields[i]) || 'W' in Upper(fields[i]) || '#' in fields[i])
  }

  // The fields of a cron expression that the parser accepts.
  ghost predicate IsExpression(fields: seq<string>, parseInt: IntParser) {
    && !UnsupportedSyntax(fields) && |fields| == 5 && !(fields[2] == "?" && fields[4] == "?")
    && WellFormedField(fields[0], MinuteSpec, parseInt) && WellFormedField(fields[1], HourSpec, parseInt)
    && WellFormedField(fields[2], DaySpec, parseInt) && WellFormedField(fields[3], MonthSpec, parseInt)
    && WellFormedField(fields[4], WeekdaySpec, parseInt)
  }

  // A day field that says something: `*` and `?` leave it unrestricted.
  predicate Restricts(field: string) {
    field != "*" && field != "?"
  }

  // Five fields in their order, each expanded under its own bounds.
  method ParseCron(fields: seq<string>, parseInt: IntParser) returns (r: Option<Parsed>)
    ensures r.Some? <==> IsExpression(fields, parseInt)
    ensures r.Some? ==> WellFormed(r.value)
    ensures r.Some? ==> |fields| == 5 && (r.value.dayRestricted <==> Restricts(fields[2]))
    ensures r.Some? ==> |fields| == 5 && (r.value.weekdayRestricted <==> Restricts(fields[4]))
    ensures r.Some? ==> |fields| == 5 && forall v ::
              && (v in r.value.minutes <==> Denotes(fields[0], v, MinuteSpec, parseInt))
              && (v in r.value.hours <==> Denotes(fields[1], v, HourSpec, parseInt))
              && (v in r.value.days <==> Denotes(fields[2], v, DaySpec, parseInt))
              && (v in r.value.months <==> Denotes(fields[3], v, MonthSpec, parseInt))
              && (v in r.value.weekdays <==> Denotes(fields[4], v, WeekdaySpec, parseInt))
  {
    if UnsupportedSyntax(fields) || |fields| != 5 || (fields[2] == "?" && fields[4] == "?") {
      return None;
    }
    hide Denotes, WellFormedField;
    var minutes := ExpandCronField(fields[0], MinuteSpec, parseInt);
    var hours := ExpandCronField(fields[1], HourSpec, parseInt);
    var days := ExpandCronField(fields[2], DaySpec, parseInt);
    var months := ExpandCronField(fields[3], MonthSpec, parseInt);
    var weekdays := ExpandCronField(fields[4], WeekdaySpec, parseInt);
    if minutes.None? || hours.None? || days.None? || months.None? || weekdays.None? {
      return None;
    }
    if !Restricts(fields[2]) { UnrestrictedIsFull(fields[2], DaySpec, parseInt); }
    if !Restricts(fields[4]) { UnrestrictedIsFull(fields[4], WeekdaySpec, parseInt); }
    r := Some(Parsed(minutes.value, hours.value, days.value, months.value, weekdays.value,
                     Restricts(fields[2]), Restricts(fields[4])));
  }

  lemma UnrestrictedIsFull(field: string, spec: FieldSpec, parseInt: IntParser)
    requires spec.allowQuestion && spec.minimum <= spec.maximum && (field == "*" || field == "?")
    requires spec.normalizeSunday ==> spec.maximum == 7
    ensures forall v :: spec.minimum <= v <= spec.maximum && (spec.normalizeSunday ==> v != 7) ==>
              Denotes(field, v, spec, parseInt)
  {
    if field == "*" {
      assert "*"[1..] == "";
      assert Split("*", ',') == ["*"] by {
        var s := "*";
        assert s[1..] == "" && Split(s[1..], ',') == [""];
        assert [s[0]] + "" == s;
      }
      forall v | spec.minimum <= v <= spec.maximum ensures Listed(["*"], v, spec, parseInt) {
        assert Covers(["*"][0], v, spec, parseInt);
      }
    }
  }

  // ---------------------------------------------------------------- the documented names

  lemma {:induction false} UpperConcat(a: string, b: string)
    ensures Upper(a + b) == Upper(a) + Upper(b)
  {
  }

  /**
   The syntax check refuses every letter L and W, so it also refuses two of the names the tables
   define: an expression that mentions JUL or WED, in any case, never parses.
   */
  lemma JulyAndWednesdayNeverParse(fields: seq<string>, i: nat, before: string, name: string, after: string)
    requires i < |fields| && fields[i] == before + name + after
    requires Upper(name) == "JUL" || Upper(name) == "WED"
    ensures UnsupportedSyntax(fields)
  {
    UpperConcat(before + name, after);
    UpperConcat(before, name);
    var upper := Upper(fields[i]);
    assert upper == Upper(before) + Upper(name) + Upper(after);
    if Upper(name) == "JUL" {
      assert upper[|before| + 2] == 'L';
    } else {
      assert upper[|before|] == 'W';
    }
  }

  ghost predicate IsPlainName(name: string) {
    && |name| == 3 && Upper(name) == name && '#' !in name
    && (('L' in name || 'W' in name) <==> name == "JUL" || name == "WED")
  }

  lemma MonthNameIsPlain(name: string)
    requires name in MonthNames
    ensures IsPlainName(name)
  {
  }

  lemma WeekdayNameIsPlain(name: string)
    requires name in WeekdayNames
    ensures IsPlainName(name)
  {
  }

  // They are the only ones: a month or weekday name passes the check exactly when it is neither.
  lemma UsableNames(name: string, parseInt: IntParser)
    requires name in MonthNames || name in WeekdayNames
    ensures UnsupportedSyntax([name]) <==> name == "JUL" || name == "WED"
    ensures name in MonthNames ==> ParseValue(name, MonthNames, parseInt) == Some(MonthNames[name])
    ensures name in WeekdayNames ==> ParseValue(name, WeekdayNames, parseInt) == Some(WeekdayNames[name])
  {
    if name in MonthNames { MonthNameIsPlain(name); } else { WeekdayNameIsPlain(name); }
    hide Upper, MonthNames, WeekdayNames;
    assert [name][0] == name;
  }
}
