/**
 What the text of a cron field means, from the pieces it is written with: lists of items, each a
 star, a value or a range of values, with or without a step.
 */
module CronGrammar {
  import opened Wrappers
  import opened CronField

  datatype Span = Star | One(text: string) | Between(low: string, high: string)

  datatype Item = Item(span: Span, step: Option<string>)

  function SpanText(span: Span): string {
    match span
    case Star => "*"
    case One(text) => text
    case Between(low, high) => low + "-" + high
  }

  function ItemText(item: Item): string {
    match item.step
    case None => SpanText(item.span)
    case Some(step) => SpanText(item.span) + "/" + step
  }

  // The pieces of an item hold none of the characters that separate them.
  predicate IsItem(item: Item) {
    && (match item.span
        case Star => true
        case One(text) => '/' !in text && ',' !in text && '-' !in text && text != "*"
        case Between(low, high) => '/' !in low + high && ',' !in low + high && '-' !in low)
    && (item.step.Some? ==> ',' !in item.step.value)
    && ItemText(item) != ""
  }

  // A table name or a number.
  predicate Reads(text: string, value: int, spec: FieldSpec, parseInt: IntParser) {
    if Upper(text) in spec.names then spec.names[Upper(text)] == value else parseInt(text) == Some(value)
  }

  // The item runs from `a` to `b` in steps of `k`, inside the bounds of the field.
  predicate Runs(item: Item, a: int, b: int, k: int, spec: FieldSpec, parseInt: IntParser) {
    && spec.minimum <= a <= b <= spec.maximum && k > 0
    && (match item.step
        case None => k == 1
        case Some(step) => parseInt(step) == Some(k))
    && (match item.span
        case Star => a == spec.minimum && b == spec.maximum
        case One(text) => Reads(text, a, spec, parseInt) && b == (if item.step.Some? then spec.maximum else a)
        case Between(low, high) => Reads(low, a, spec, parseInt) && Reads(high, b, spec, parseInt))
  }

  ghost predicate Usable(item: Item, spec: FieldSpec, parseInt: IntParser) {
    exists a, b, k :: Runs(item, a, b, k, spec, parseInt)
  }

  // On weekdays 7 is another name of 0.
  function ZeroSunday(u: int, spec: FieldSpec): int {
    if spec.normalizeSunday && u == 7 then 0 else u
  }

  predicate Hits(a: int, b: int, k: int, u: int) {
    k > 0 && a <= u <= b && (u - a) % k == 0
  }

  ghost predicate Means(item: Item, v: int, spec: FieldSpec, parseInt: IntParser) {
    exists a, b, k, u :: Runs(item, a, b, k, spec, parseInt) && Hits(a, b, k, u) && v == ZeroSunday(u, spec)
  }

  // ---------------------------------------------------------------- text lemmas

  lemma {:induction false} SplitOnceAt(a: string, separator: char, b: string)
    requires separator !in a
    ensures separator in a + [separator] + b && SplitOnce(a + [separator] + b, separator) == (a, b)
  {
    var s := a + [separator] + b;
    if a == "" {
      assert s[0] == separator && s[1..] == b;
    } else {
      SplitOnceAt(a[1..], separator, b);
      assert s[0] == a[0] && s[1..] == a[1..] + [separator] + b;
      assert a == [a[0]] + a[1..];
    }
  }

  lemma {:induction false} SplitOnceJoins(s: string, separator: char)
    requires separator in s
    ensures var (before, after) := SplitOnce(s, separator); separator !in before && s == before + [separator] + after
  {
    if s[0] == separator {
      assert s == "" + [separator] + s[1..];
    } else {
      SplitOnceJoins(s[1..], separator);
      assert s == [s[0]] + s[1..];
    }
  }

  lemma {:induction false} SplitHead(part: string, rest: string, separator: char)
    requires separator !in part
    ensures Split(part + [separator] + rest, separator) == [part] + Split(rest, separator)
  {
    var s := part + [separator] + rest;
    if part == "" {
      assert s[0] == separator && s[1..] == rest;
    } else {
      SplitHead(part[1..], rest, separator);
      assert s[0] == part[0] && s[1..] == part[1..] + [separator] + rest;
      assert [part[0]] + part[1..] == part;
    }
  }

  lemma {:induction false} SplitPlain(part: string, separator: char)
    requires separator !in part
    ensures Split(part, separator) == [part]
  {
    if part != "" {
      SplitPlain(part[1..], separator);
      assert [part[0]] + part[1..] == part;
    }
  }

  lemma {:induction false} SplitInvertsJoin(parts: seq<string>, separator: char)
    requires |parts| >= 1 && forall i :: 0 <= i < |parts| ==> separator !in parts[i]
    ensures Split(Join(parts, separator), separator) == parts
  {
    if |parts| == 1 {
      SplitPlain(parts[0], separator);
    } else {
      SplitInvertsJoin(parts[1..], separator);
      SplitHead(parts[0], Join(parts[1..], separator), separator);
    }
  }

  // ---------------------------------------------------------------- one item

  lemma ReadsValue(text: string, value: int, spec: FieldSpec, parseInt: IntParser)
    ensures ParseValue(text, spec.names, parseInt) == Some(value) <==> Reads(text, value, spec, parseInt)
  {
  }

  // Where the parser finds the pieces of an item.
  lemma PiecesFound(item: Item)
    requires IsItem(item)
    ensures var text, span := ItemText(item), SpanText(item.span);
            && ('/' in text <==> item.step.Some?)
            && (item.step.Some? ==> SplitOnce(text, '/') == (span, item.step.value))
            && (item.step.None? ==> text == span)
            && (span == "*" <==> item.span.Star?)
            && (!item.span.Star? ==> ('-' in span <==> item.span.Between?))
            && (item.span.Between? ==> SplitOnce(span, '-') == (item.span.low, item.span.high))
  {
    var span := SpanText(item.span);
    assert '/' !in span;
    if item.step.Some? {
      SplitOnceAt(span, '/', item.step.value);
      assert span + "/" + item.step.value == span + ['/'] + item.step.value;
    }
    if item.span.Between? {
      SplitOnceAt(item.span.low, '-', item.span.high);
      assert span == item.span.low + ['-'] + item.span.high;
      assert span[|item.span.low|] == '-';
      assert '-' in span;
    }
  }

  lemma ItemParses(item: Item, a: int, b: int, k: int, spec: FieldSpec, parseInt: IntParser)
    requires IsItem(item)
    ensures ParsePart(ItemText(item), spec, parseInt) == Some(Range(a, b, k)) <==> Runs(item, a, b, k, spec, parseInt)
  {
    PiecesFound(item);
    match item.span
    case Star =>
    case One(text) => ReadsValue(text, a, spec, parseInt);
    case Between(low, high) =>
      ReadsValue(low, a, spec, parseInt);
      ReadsValue(high, b, spec, parseInt);
  }

  lemma ItemCovers(item: Item, u: int, spec: FieldSpec, parseInt: IntParser)
    requires IsItem(item)
    ensures ParsePart(ItemText(item), spec, parseInt).Some? <==> Usable(item, spec, parseInt)
    ensures Covers(ItemText(item), u, spec, parseInt)
       <==> exists a, b, k :: Runs(item, a, b, k, spec, parseInt) && Hits(a, b, k, u)
  {
    forall a, b, k
      ensures ParsePart(ItemText(item), spec, parseInt) == Some(Range(a, b, k)) <==> Runs(item, a, b, k, spec, parseInt)
    {
      ItemParses(item, a, b, k, spec, parseInt);
    }
    var parsed := ParsePart(ItemText(item), spec, parseInt);
    if parsed.Some? {
      assert Runs(item, parsed.value.start, parsed.value.end, parsed.value.step, spec, parseInt);
    }
  }

  // ---------------------------------------------------------------- a whole field

  function Texts(items: seq<Item>): seq<string> {
    seq(|items|, i requires 0 <= i < |items| => ItemText(items[i]))
  }

  function FieldText(items: seq<Item>): string
    requires |items| >= 1
  {
    Join(Texts(items), ',')
  }

  lemma ItemsAreParts(items: seq<Item>)
    requires |items| >= 1 && forall i :: 0 <= i < |items| ==> IsItem(items[i])
    ensures Split(FieldText(items), ',') == Texts(items)
  {
    forall i | 0 <= i < |items| ensures ',' !in Texts(items)[i] {
      assert IsItem(items[i]);
    }
    SplitInvertsJoin(Texts(items), ',');
  }

  lemma ItemsListed(items: seq<Item>, u: int, spec: FieldSpec, parseInt: IntParser)
    requires forall i :: 0 <= i < |items| ==> IsItem(items[i])
    ensures Listed(Texts(items), u, spec, parseInt)
       <==> exists i, a, b, k :: 0 <= i < |items| && Runs(items[i], a, b, k, spec, parseInt) && Hits(a, b, k, u)
  {
    hide Runs, Covers, ItemText;
    if Listed(Texts(items), u, spec, parseInt) {
      var i :| 0 <= i < |items| && Covers(Texts(items)[i], u, spec, parseInt);
      ItemCovers(items[i], u, spec, parseInt);
    }
    if i, a, b, k :| 0 <= i < |items| && Runs(items[i], a, b, k, spec, parseInt) && Hits(a, b, k, u) {
      ItemCovers(items[i], u, spec, parseInt);
      assert Covers(Texts(items)[i], u, spec, parseInt);
    }
  }

  /**
   The text of a field, from its items: it is accepted exactly when every item is usable, and then
   holds exactly what some item means: every `k`-th value from `a` to `b`, 7 being 0 on weekdays.
   */
  lemma FieldMeaning(items: seq<Item>, spec: FieldSpec, parseInt: IntParser)
    requires |items| >= 1 && forall i :: 0 <= i < |items| ==> IsItem(items[i])
    requires spec.allowQuestion ==> FieldText(items) != "?"
    ensures WellFormedField(FieldText(items), spec, parseInt)
       <==> forall i :: 0 <= i < |items| ==> Usable(items[i], spec, parseInt)
    ensures forall v :: Denotes(FieldText(items), v, spec, parseInt)
                   <==> exists i :: 0 <= i < |items| && Means(items[i], v, spec, parseInt)
  {
    hide Runs, Covers, ItemText, FieldText;
    ItemsAreParts(items);
    forall i | 0 <= i < |items|
      ensures ParsePart(Texts(items)[i], spec, parseInt).Some? <==> Usable(items[i], spec, parseInt)
    {
      ItemCovers(items[i], 0, spec, parseInt);
    }
    forall v ensures Denotes(FieldText(items), v, spec, parseInt)
                <==> exists i :: 0 <= i < |items| && Means(items[i], v, spec, parseInt)
    {
      FieldHolds(items, v, spec, parseInt);
    }
  }

  lemma FieldHolds(items: seq<Item>, v: int, spec: FieldSpec, parseInt: IntParser)
    requires |items| >= 1 && forall i :: 0 <= i < |items| ==> IsItem(items[i])
    requires spec.allowQuestion ==> FieldText(items) != "?"
    ensures Denotes(FieldText(items), v, spec, parseInt)
       <==> exists i :: 0 <= i < |items| && Means(items[i], v, spec, parseInt)
  {
    hide Runs, Listed, ItemText, FieldText, Hits;
    ItemsAreParts(items);
    ItemsListed(items, v, spec, parseInt);
    ItemsListed(items, 7, spec, parseInt);
    if Denotes(FieldText(items), v, spec, parseInt) {
      var u := if spec.normalizeSunday && !(v != 7 && Listed(Texts(items), v, spec, parseInt)) then 7 else v;
      var i, a, b, k :| 0 <= i < |items| && Runs(items[i], a, b, k, spec, parseInt) && Hits(a, b, k, u);
      assert Means(items[i], v, spec, parseInt);
    }
    if i :| 0 <= i < |items| && Means(items[i], v, spec, parseInt) {
      var a, b, k, u :| Runs(items[i], a, b, k, spec, parseInt) && Hits(a, b, k, u) && v == ZeroSunday(u, spec);
    }
  }

  // The items are all there is: every part that is not empty is written as one.
  lemma EveryPartIsAnItem(part: string) returns (item: Item)
    requires part != "" && ',' !in part
    ensures IsItem(item) && ItemText(item) == part
  {
    var span := part;
    var step: Option<string> := None;
    if '/' in part {
      SplitOnceJoins(part, '/');
      span := SplitOnce(part, '/').0;
      step := Some(SplitOnce(part, '/').1);
      assert part == span + "/" + step.value;
    }
    if span == "*" {
      item := Item(Star, step);
    } else if '-' in span {
      SplitOnceJoins(span, '-');
      item := Item(Between(SplitOnce(span, '-').0, SplitOnce(span, '-').1), step);
      assert span == SplitOnce(span, '-').0 + "-" + SplitOnce(span, '-').1;
    } else {
      item := Item(One(span), step);
    }
  }

  // An empty part is refused wherever it stands.
  lemma EmptyPartRefused(parts: seq<string>, i: nat, spec: FieldSpec, parseInt: IntParser)
    requires i < |parts| && parts[i] == "" && forall k :: 0 <= k < |parts| ==> ',' !in parts[k]
    requires spec.allowQuestion ==> Join(parts, ',') != "?"
    ensures !WellFormedField(Join(parts, ','), spec, parseInt)
  {
    SplitInvertsJoin(parts, ',');
    assert ParsePart(parts[i], spec, parseInt).None?;
  }

  // ---------------------------------------------------------------- the forms by name

  /** A star with a step: every `k`-th value from the minimum on. */
  lemma EveryKth(t: string, k: int, spec: FieldSpec, parseInt: IntParser)
    requires ',' !in t && parseInt(t) == Some(k) && k > 0
    requires spec.minimum <= spec.maximum && !spec.normalizeSunday
    ensures WellFormedField("*/" + t, spec, parseInt)
    ensures forall v :: Denotes("*/" + t, v, spec, parseInt)
                   <==> spec.minimum <= v <= spec.maximum && (v - spec.minimum) % k == 0
  {
    var item := Item(Star, Some(t));
    assert "*" + "/" + t == "*/" + t;
    OneItem(item, spec.minimum, spec.maximum, k, "*/" + t, spec, parseInt);
  }

  /** A range of numbers with a step. */
  lemma RangeWithStep(low: string, high: string, t: string, a: int, b: int, k: int, spec: FieldSpec, parseInt: IntParser)
    requires IsItem(Item(Between(low, high), Some(t))) && !spec.normalizeSunday
    requires Upper(low) !in spec.names && Upper(high) !in spec.names
    requires parseInt(low) == Some(a) && parseInt(high) == Some(b) && parseInt(t) == Some(k) && k > 0
    requires spec.minimum <= a <= b <= spec.maximum
    ensures WellFormedField(low + "-" + high + "/" + t, spec, parseInt)
    ensures forall v :: Denotes(low + "-" + high + "/" + t, v, spec, parseInt) <==> a <= v <= b && (v - a) % k == 0
  {
    OneItem(Item(Between(low, high), Some(t)), a, b, k, low + "-" + high + "/" + t, spec, parseInt);
  }

  /** A number with a step runs to the maximum of the field. */
  lemma FromWithStep(low: string, t: string, a: int, k: int, spec: FieldSpec, parseInt: IntParser)
    requires IsItem(Item(One(low), Some(t))) && !spec.normalizeSunday && Upper(low) !in spec.names
    requires parseInt(low) == Some(a) && parseInt(t) == Some(k) && k > 0 && spec.minimum <= a <= spec.maximum
    ensures WellFormedField(low + "/" + t, spec, parseInt)
    ensures forall v :: Denotes(low + "/" + t, v, spec, parseInt) <==> a <= v <= spec.maximum && (v - a) % k == 0
  {
    assert (low + "/" + t)[|low|] == '/';
    OneItem(Item(One(low), Some(t)), a, spec.maximum, k, low + "/" + t, spec, parseInt);
  }

  /** A range without a step holds every value in it, and a single number only itself. */
  lemma PlainRange(low: string, high: string, a: int, b: int, spec: FieldSpec, parseInt: IntParser)
    requires IsItem(Item(Between(low, high), None)) && !spec.normalizeSunday
    requires Upper(low) !in spec.names && Upper(high) !in spec.names
    requires parseInt(low) == Some(a) && parseInt(high) == Some(b) && spec.minimum <= a <= b <= spec.maximum
    ensures WellFormedField(low + "-" + high, spec, parseInt)
    ensures forall v :: Denotes(low + "-" + high, v, spec, parseInt) <==> a <= v <= b
  {
    OneItem(Item(Between(low, high), None), a, b, 1, low + "-" + high, spec, parseInt);
  }

  lemma PlainNumber(low: string, a: int, spec: FieldSpec, parseInt: IntParser)
    requires IsItem(Item(One(low), None)) && !spec.normalizeSunday && Upper(low) !in spec.names
    requires parseInt(low) == Some(a) && spec.minimum <= a <= spec.maximum && (spec.allowQuestion ==> low != "?")
    ensures WellFormedField(low, spec, parseInt)
    ensures forall v :: Denotes(low, v, spec, parseInt) <==> v == a
  {
    OneItem(Item(One(low), None), a, a, 1, low, spec, parseInt);
  }

  // The text equals the name but for the case of its letters.
  predicate SameLetters(text: string, name: string) {
    && |text| == |name|
    && forall i :: 0 <= i < |text| ==>
         text[i] == name[i] || ('a' <= text[i] <= 'z' && name[i] as int == text[i] as int - 32)
  }

  lemma UpperOfName(text: string, name: string)
    requires SameLetters(text, name) && forall i :: 0 <= i < |name| ==> !('a' <= name[i] <= 'z')
    ensures Upper(text) == name
  {
  }

  /** A table name, in any case, is its number. */
  lemma PlainName(text: string, name: string, spec: FieldSpec, parseInt: IntParser)
    requires IsItem(Item(One(text), None)) && name in spec.names && spec.minimum <= spec.names[name] <= spec.maximum
    requires SameLetters(text, name) && forall i :: 0 <= i < |name| ==> !('a' <= name[i] <= 'z')
    requires !spec.normalizeSunday || spec.names[name] != 7
    requires spec.allowQuestion ==> text != "?"
    ensures WellFormedField(text, spec, parseInt)
    ensures forall v :: Denotes(text, v, spec, parseInt) <==> v == spec.names[name]
  {
    UpperOfName(text, name);
    var a := spec.names[name];
    OneItem(Item(One(text), None), a, a, 1, text, spec, parseInt);
  }

  lemma OneItemMeans(item: Item, a: int, b: int, k: int, text: string, spec: FieldSpec, parseInt: IntParser)
    requires IsItem(item) && ItemText(item) == text && (spec.allowQuestion ==> text != "?")
    requires Runs(item, a, b, k, spec, parseInt)
    ensures WellFormedField(text, spec, parseInt)
    ensures forall v :: Denotes(text, v, spec, parseInt) <==> exists u :: Hits(a, b, k, u) && v == ZeroSunday(u, spec)
  {
    var items := [item];
    assert Texts(items) == [text] && FieldText(items) == text;
    FieldMeaning(items, spec, parseInt);
    RunsOnce(item, a, b, k, spec, parseInt);
    hide Runs, Denotes, WellFormedField;
    assert Usable(items[0], spec, parseInt);
    forall v ensures Means(item, v, spec, parseInt) <==> exists u :: Hits(a, b, k, u) && v == ZeroSunday(u, spec) {
      if Means(item, v, spec, parseInt) {
        var a', b', k', u :| Runs(item, a', b', k', spec, parseInt) && Hits(a', b', k', u) && v == ZeroSunday(u, spec);
      }
    }
    assert items[0] == item;
  }

  lemma OneItem(item: Item, a: int, b: int, k: int, text: string, spec: FieldSpec, parseInt: IntParser)
    requires IsItem(item) && ItemText(item) == text && (spec.allowQuestion ==> text != "?")
    requires Runs(item, a, b, k, spec, parseInt) && (!spec.normalizeSunday || !Hits(a, b, k, 7))
    ensures WellFormedField(text, spec, parseInt)
    ensures forall v :: Denotes(text, v, spec, parseInt) <==> a <= v <= b && (v - a) % k == 0
  {
    OneItemMeans(item, a, b, k, text, spec, parseInt);
    hide Denotes, WellFormedField, IsItem, ItemText;
    forall v ensures Denotes(text, v, spec, parseInt) <==> Hits(a, b, k, v) {
      if Hits(a, b, k, v) { assert v == ZeroSunday(v, spec); }
    }
  }

  // An item runs in one way.
  lemma RunsOnce(item: Item, a: int, b: int, k: int, spec: FieldSpec, parseInt: IntParser)
    requires Runs(item, a, b, k, spec, parseInt)
    ensures forall a', b', k' :: Runs(item, a', b', k', spec, parseInt) ==> a' == a && b' == b && k' == k
  {
  }

  // ---------------------------------------------------------------- the bounds and the syntax check

  /** The five fields range over minutes, hours, days, months and weekdays, Sunday being 0. */
  lemma StarBounds(parseInt: IntParser)
    ensures forall v :: Denotes("*", v, MinuteSpec, parseInt) <==> 0 <= v <= 59
    ensures forall v :: Denotes("*", v, HourSpec, parseInt) <==> 0 <= v <= 23
    ensures forall v :: Denotes("*", v, DaySpec, parseInt) <==> 1 <= v <= 31
    ensures forall v :: Denotes("*", v, MonthSpec, parseInt) <==> 1 <= v <= 12
    ensures forall v :: Denotes("*", v, WeekdaySpec, parseInt) <==> 0 <= v <= 6
  {
    StarOf(MinuteSpec, parseInt);
    StarOf(HourSpec, parseInt);
    StarOf(DaySpec, parseInt);
    StarOf(MonthSpec, parseInt);
    StarOf(WeekdaySpec, parseInt);
    assert ZeroSunday(7, WeekdaySpec) == 0;
  }

  lemma StarOf(spec: FieldSpec, parseInt: IntParser)
    requires spec.minimum <= spec.maximum
    ensures forall v :: Denotes("*", v, spec, parseInt)
                   <==> exists u :: spec.minimum <= u <= spec.maximum && v == ZeroSunday(u, spec)
  {
    OneItemMeans(Item(Star, None), spec.minimum, spec.maximum, 1, "*", spec, parseInt);
    assert forall u :: Hits(spec.minimum, spec.maximum, 1, u) <==> spec.minimum <= u <= spec.maximum;
  }

  lemma LettersOfUpper(s: string)
    ensures 'L' in Upper(s) <==> 'L' in s || 'l' in s
    ensures 'W' in Upper(s) <==> 'W' in s || 'w' in s
  {
    forall i | 0 <= i < |s| ensures Upper(s)[i] == UpperChar(s[i]) && Upper(s)[i] in Upper(s) {
    }
  }

  /** The syntax check refuses more than five fields, and any letter L or W and any number sign. */
  lemma SyntaxCheck(fields: seq<string>)
    ensures UnsupportedSyntax(fields)
       <==> |fields| > 5 || exists i, c :: 0 <= i < |fields| && c in "LlWw#" && c in fields[i]
  {
    forall i | 0 <= i < |fields|
      ensures 'L' in Upper(fields[i]) || 'W' in Upper(fields[i]) || '#' in fields[i]
         <==> exists c :: c in "LlWw#" && c in fields[i]
    {
      LettersOfUpper(fields[i]);
      assert "LlWw#" == ['L', 'l', 'W', 'w', '#'];
      if 'L' in fields[i] { assert 'L' in "LlWw#"; }
      if 'l' in fields[i] { assert 'l' in "LlWw#"; }
      if 'W' in fields[i] { assert 'W' in "LlWw#"; }
      if 'w' in fields[i] { assert 'w' in "LlWw#"; }
      if '#' in fields[i] { assert '#' in "LlWw#"; }
    }
  }

  const MONTHS := ["JAN", "FEB", "MAR", "APR", "MAY", "JUN", "JUL", "AUG", "SEP", "OCT", "NOV", "DEC"]
  const WEEKDAYS := ["SUN", "MON", "TUE", "WED", "THU", "FRI", "SAT"]

  /** The name tables count the months from 1 and the weekdays from Sunday, 0. */
  lemma NameTables(i: nat)
    ensures i < 12 ==> MONTHS[i] in MonthSpec.names && MonthSpec.names[MONTHS[i]] == i + 1
    ensures i < 7 ==> WEEKDAYS[i] in WeekdaySpec.names && WeekdaySpec.names[WEEKDAYS[i]] == i
  {
  }
}
