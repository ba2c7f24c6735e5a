/** Per-stage summaries of the event history. */
module Summaries {
  import opened EventLog
  import opened Filtering
  import opened Ordering
  import opened Wrappers

  // ---------------------------------------------------------------- severity

  function LowerChar(c: char): char {
    if 'A' <= c <= 'Z' then (c as int + 32) as char else c
  }

  function Lower(s: string): string {
    if s == "" then "" else [LowerChar(s[0])] + Lower(s[1..])
  }

  function LevelRank(level: Option<string>): nat {
    match level
    case None => 0
    case Some(name) =>
      if name == "" then 0
      else
        var l := Lower(name);
        if l == "debug" then 10
        else if l == "info" then 20
        else if l == "warning" then 30
        else if l == "error" then 40
        else if l == "critical" then 50
        else 1
  }

  function LevelOf(r: Record): Option<string> {
    if Level in r.tags then Some(r.tags[Level]) else None
  }

  function RankOf(r: Record): nat {
    LevelRank(LevelOf(r))
  }

  /** A missing or empty level ranks lowest, an unknown one next, and then the known ones in their order. */
  lemma LevelOrder(unknown: string)
    requires unknown != ""
    requires Lower(unknown) !in ["debug", "info", "warning", "error", "critical"]
    ensures LevelRank(None) == LevelRank(Some("")) < LevelRank(Some(unknown)) < LevelRank(Some("debug"))
    ensures LevelRank(Some("debug")) < LevelRank(Some("info")) < LevelRank(Some("warning"))
    ensures LevelRank(Some("warning")) < LevelRank(Some("error")) < LevelRank(Some("critical"))
  {
    RankOfDebug();
    RankOfInfo();
    RankOfWarning();
    RankOfError();
    RankOfCritical();
    hide Lower;
  }

  lemma RankOfDebug()
    ensures LevelRank(Some("debug")) == 10
  {
    LowerIsStable("debug");
  }

  lemma RankOfInfo()
    ensures LevelRank(Some("info")) == 20
  {
    LowerIsStable("info");
    assert |"info"| == 4 && |"debug"| == 5;
  }

  lemma RankOfWarning()
    ensures LevelRank(Some("warning")) == 30
  {
    LowerIsStable("warning");
    assert |"warning"| == 7 && |"debug"| == 5 && |"info"| == 4;
  }

  lemma RankOfError()
    ensures LevelRank(Some("error")) == 40
  {
    LowerIsStable("error");
    assert |"error"| == 5 && |"info"| == 4 && |"warning"| == 7 && "error"[0] != "debug"[0];
  }

  lemma RankOfCritical()
    ensures LevelRank(Some("critical")) == 50
  {
    LowerIsStable("critical");
    assert |"critical"| == 8 && |"debug"| == 5 && |"info"| == 4 && |"warning"| == 7 && |"error"| == 5;
  }

  lemma {:induction false} LowerIsStable(s: string)
    requires forall i :: 0 <= i < |s| ==> !('A' <= s[i] <= 'Z')
    ensures Lower(s) == s
  {
    if s != "" { LowerIsStable(s[1..]); }
  }

  /** Levels are compared without regard to case. */
  lemma {:induction false} LowerFolds(s: string, t: string)
    requires |s| == |t|
    requires forall i :: 0 <= i < |s| ==> s[i] == t[i] || ('A' <= s[i] <= 'Z' && t[i] as int == s[i] as int + 32)
    ensures Lower(s) == Lower(t) && LevelRank(Some(s)) == LevelRank(Some(t))
  {
    if s != "" { LowerFolds(s[1..], t[1..]); }
  }

  // ---------------------------------------------------------------- one stage

  datatype Accumulator = Accumulator(
    count: nat,
    total: real,
    first: Option<int>,
    last: Option<int>,
    latestSequence: Option<int>,
    latestMessage: Option<string>,
    bestRank: nat,
    worstLevel: Option<string>)

  const NOTHING := Accumulator(0, 0.0, None, None, None, None, 0, None)

  // One record added to its stage.
  function Add(acc: Accumulator, r: Record): Accumulator {
    Accumulator(
      acc.count + 1,
      acc.total + (match r.duration case Some(d) => d case None => 0.0),
      if acc.first.None? || r.occurredAt < acc.first.value then Some(r.occurredAt) else acc.first,
      if acc.last.None? || r.occurredAt >= acc.last.value then Some(r.occurredAt) else acc.last,
      r.sequence,
      r.message,
      if RankOf(r) >= acc.bestRank then RankOf(r) else acc.bestRank,
      if RankOf(r) >= acc.bestRank then LevelOf(r) else acc.worstLevel)
  }

  function Accumulate(records: seq<Record>): Accumulator {
    if records == [] then NOTHING
    else Add(Accumulate(records[..|records| - 1]), records[|records| - 1])
  }

  function TotalDuration(records: seq<Record>): real {
    if records == [] then 0.0
    else (match records[0].duration case Some(d) => d case None => 0.0) + TotalDuration(records[1..])
  }

  lemma TotalOfOne(r: Record)
    ensures r.duration.Some? ==> TotalDuration([r]) == r.duration.value
    ensures r.duration.None? ==> TotalDuration([r]) == 0.0
  {
  }

  lemma {:induction false} TotalAppend(a: seq<Record>, r: Record)
    ensures TotalDuration(a + [r]) == TotalDuration(a) + TotalDuration([r])
  {
    if a == [] {
      assert a + [r] == [r];
    } else {
      assert (a + [r])[1..] == a[1..] + [r];
      TotalAppend(a[1..], r);
    }
  }

  // `t` is the least, or the greatest, time of the records.
  ghost predicate IsFirst(t: int, records: seq<Record>) {
    && (exists r :: r in records && r.occurredAt == t)
    && forall r :: r in records ==> t <= r.occurredAt
  }

  ghost predicate IsLast(t: int, records: seq<Record>) {
    && (exists r :: r in records && r.occurredAt == t)
    && forall r :: r in records ==> r.occurredAt <= t
  }

  // Record `k` has the worst level, and every later record a lower one.
  ghost predicate IsWorst(records: seq<Record>, k: nat) {
    && k < |records|
    && (forall j :: 0 <= j < k ==> RankOf(records[j]) <= RankOf(records[k]))
    && forall j :: k < j < |records| ==> RankOf(records[j]) < RankOf(records[k])
  }

  ghost predicate TellsTimes(acc: Accumulator, records: seq<Record>) {
    if records == [] then acc.first.None? && acc.last.None?
    else
      && acc.first.Some? && IsFirst(acc.first.value, records)
      && acc.last.Some? && IsLast(acc.last.value, records)
  }

  ghost predicate TellsLatest(acc: Accumulator, records: seq<Record>) {
    records != [] ==>
      && acc.latestSequence == records[|records| - 1].sequence
      && acc.latestMessage == records[|records| - 1].message
  }

  ghost predicate TellsWorst(acc: Accumulator, records: seq<Record>) {
    if records == [] then acc.bestRank == 0
    else exists k: nat :: IsWorst(records, k) && k < |records|
                          && acc.worstLevel == LevelOf(records[k]) && acc.bestRank == RankOf(records[k])
  }

  // What the accumulator of a stage says about the stage's records, oldest first.
  ghost predicate Describes(acc: Accumulator, records: seq<Record>) {
    && acc.count == |records|
    && acc.total == TotalDuration(records)
    && TellsTimes(acc, records)
    && TellsLatest(acc, records)
    && TellsWorst(acc, records)
  }

  lemma AddTellsTimes(acc: Accumulator, records: seq<Record>, r: Record)
    requires TellsTimes(acc, records)
    ensures TellsTimes(Add(acc, r), records + [r])
  {
  }

  lemma WorstOfOneMore(records: seq<Record>, k: nat, r: Record)
    requires IsWorst(records, k)
    ensures IsWorst(records + [r], if RankOf(r) >= RankOf(records[k]) then |records| else k)
  {
    hide RankOf;
  }

  lemma AddTellsWorst(acc: Accumulator, records: seq<Record>, r: Record)
    requires TellsWorst(acc, records)
    ensures TellsWorst(Add(acc, r), records + [r])
  {
    var all := records + [r];
    if records == [] {
      assert IsWorst(all, 0);
    } else {
      hide IsWorst, RankOf, LevelOf;
      var k: nat :| IsWorst(records, k) && k < |records|
                    && acc.worstLevel == LevelOf(records[k]) && acc.bestRank == RankOf(records[k]);
      WorstOfOneMore(records, k, r);
    }
  }

  lemma {:induction false} AccumulateDescribes(records: seq<Record>)
    ensures Describes(Accumulate(records), records)
  {
    hide Accumulate, Add, Describes;
    if records == [] {
      NothingDescribed();
    } else {
      var before, r := records[..|records| - 1], records[|records| - 1];
      AccumulateDescribes(before);
      AddDescribes(Accumulate(before), before, r);
      AccumulateOneMore(before, r);
      assert before + [r] == records;
    }
  }

  lemma NothingDescribed()
    ensures Describes(Accumulate([]), [])
  {
  }

  lemma AccumulateOneMore(records: seq<Record>, r: Record)
    ensures Accumulate(records + [r]) == Add(Accumulate(records), r)
  {
  }

  lemma AddDescribes(acc: Accumulator, records: seq<Record>, r: Record)
    requires Describes(acc, records)
    ensures Describes(Add(acc, r), records + [r])
  {
    hide TellsTimes, TellsWorst;
    TotalAppend(records, r);
    AddTellsTimes(acc, records, r);
    AddTellsWorst(acc, records, r);
  }

  // ---------------------------------------------------------------- all stages

  function OfStage(stage: Option<nat>): Record -> bool {
    (r: Record) => r.stage == stage
  }

  // The stages in the order of their first record.
  function StagesSeen(records: seq<Record>): seq<Option<nat>> {
    if records == [] then []
    else
      var seen := StagesSeen(records[..|records| - 1]);
      var stage := records[|records| - 1].stage;
      if stage in seen then seen else seen + [stage]
  }

  datatype Summary = Summary(stage: Option<nat>, data: Accumulator)

  // The stage without a name sorts first.
  predicate StageLeq(a: Summary, b: Summary) {
    a.stage.None? || (b.stage.Some? && a.stage.value <= b.stage.value)
  }

  const byStage: (Summary, Summary) -> bool := (a, b) => StageLeq(a, b)

  function SummaryOf(ordered: seq<Record>, stage: Option<nat>): Summary {
    Summary(stage, Accumulate(Filter(ordered, OfStage(stage))))
  }

  function Unsorted(ordered: seq<Record>, stages: seq<Option<nat>>): seq<Summary> {
    seq(|stages|, i requires 0 <= i < |stages| => SummaryOf(ordered, stages[i]))
  }

  function Summarized(ordered: seq<Record>): seq<Summary> {
    Sort(Unsorted(ordered, StagesSeen(ordered)), byStage)
  }

  ghost predicate NoRepeats(stages: seq<Option<nat>>) {
    forall i, j :: 0 <= i < j < |stages| ==> stages[i] != stages[j]
  }

  lemma {:induction false} StagesSeenFacts(records: seq<Record>)
    ensures NoRepeats(StagesSeen(records))
    ensures forall s :: s in StagesSeen(records) <==> exists r :: r in records && r.stage == s
  {
    if records != [] {
      var before, r := records[..|records| - 1], records[|records| - 1];
      StagesSeenFacts(before);
      assert records == before + [r];
      forall s ensures s in StagesSeen(records) <==> exists x :: x in records && x.stage == s {
        if s == r.stage {
          assert r in records;
        } else {
          assert forall x :: x in before ==> x in records;
        }
      }
    }
  }

  lemma StageOrderIsTotal()
    ensures TotalPreorder(byStage)
    ensures forall a, b :: byStage(a, b) && byStage(b, a) ==> a.stage == b.stage
  {
  }

  // The summaries of a result: the unnamed stage first, the named ones strictly ascending.
  ghost predicate StagesAscend(result: seq<Summary>) {
    forall i, j :: 0 <= i < j < |result| ==>
      result[j].stage.Some? && (result[i].stage.Some? ==> result[i].stage.value < result[j].stage.value)
  }

  lemma UnsortedMember(ordered: seq<Record>, s: Summary)
    requires s in Unsorted(ordered, StagesSeen(ordered))
    ensures s == SummaryOf(ordered, s.stage) && exists r :: r in ordered && r.stage == s.stage
  {
    StagesSeenFacts(ordered);
    var i :| 0 <= i < |StagesSeen(ordered)| && Unsorted(ordered, StagesSeen(ordered))[i] == s;
    assert s.stage in StagesSeen(ordered);
  }

  lemma UnsortedHas(ordered: seq<Record>, r: Record)
    requires r in ordered
    ensures SummaryOf(ordered, r.stage) in Unsorted(ordered, StagesSeen(ordered))
  {
    StagesSeenFacts(ordered);
    var stages := StagesSeen(ordered);
    assert r.stage in stages;
    var i :| 0 <= i < |stages| && stages[i] == r.stage;
    assert Unsorted(ordered, stages)[i] == SummaryOf(ordered, r.stage);
  }

  // The records of one stage, oldest first by the stable key.
  function StageRecords(records: seq<Record>, stage: Option<nat>): seq<Record> {
    Filter(Sort(records, byKey), OfStage(stage))
  }

  lemma StageRecordsSorted(records: seq<Record>, stage: Option<nat>)
    ensures Sorted(StageRecords(records, stage), byKey)
    ensures multiset(StageRecords(records, stage)) == multiset(Filter(records, OfStage(stage)))
  {
    KeyOrderIsTotal();
    SortSorts(records, byKey);
    FilterSorted(Sort(records, byKey), OfStage(stage));
    FilterPermuted(Sort(records, byKey), records, OfStage(stage));
  }

  lemma {:induction false} FilterSorted(records: seq<Record>, keep: Record -> bool)
    requires Sorted(records, byKey)
    ensures Sorted(Filter(records, keep), byKey)
  {
    if records != [] {
      FilterSorted(records[1..], keep);
      forall x | x in Filter(records[1..], keep) ensures byKey(records[0], x) {
        FilterMember(records[1..], keep, x);
      }
    }
  }

  ghost predicate Occurs(stage: Option<nat>, records: seq<Record>) {
    exists r :: r in records && r.stage == stage
  }

  ghost predicate HasSummary(result: seq<Summary>, stage: Option<nat>) {
    exists s :: s in result && s.stage == stage
  }

  // The summary describes the records of its stage, taken in their stable order.
  ghost predicate Faithful(s: Summary, records: seq<Record>) {
    && Describes(s.data, StageRecords(records, s.stage))
    && Sorted(StageRecords(records, s.stage), byKey)
    && multiset(StageRecords(records, s.stage)) == multiset(Filter(records, OfStage(s.stage)))
  }

  /**
   What that says of the records themselves: the summary counts those of its stage, and its latest
   sequence and message are those of one that no other of the stage is later than.
   */
  lemma FaithfulMeans(s: Summary, records: seq<Record>)
    requires Faithful(s, records) && exists r :: r in records && r.stage == s.stage
    ensures s.data.count == |Filter(records, OfStage(s.stage))|
    ensures exists r :: && r in records && r.stage == s.stage
                        && r.message == s.data.latestMessage && r.sequence == s.data.latestSequence
                        && s.data.last == Some(r.occurredAt)
                        && forall x :: x in records && x.stage == s.stage ==> NoLater(x, r)
    ensures exists r :: && r in records && r.stage == s.stage && s.data.first == Some(r.occurredAt)
                        && forall x :: x in records && x.stage == s.stage ==> r.occurredAt <= x.occurredAt
    ensures exists r :: && r in records && r.stage == s.stage && LevelOf(r) == s.data.worstLevel
                        && forall x :: x in records && x.stage == s.stage ==> RankOf(x) <= RankOf(r)
  {
    var g := StageRecords(records, s.stage);
    assert |multiset(g)| == |multiset(Filter(records, OfStage(s.stage)))|;
    forall x ensures x in g <==> x in records && x.stage == s.stage {
      FilterMember(records, OfStage(s.stage), x);
      assert x in multiset(g) <==> x in multiset(Filter(records, OfStage(s.stage)));
    }
    hide StageRecords, Filter;
    assert g != [];
    LatestIsLast(s.data, g);
    WorstIsWorst(s.data, g);
  }

  lemma LastIsLatest(g: seq<Record>, x: Record)
    requires Sorted(g, byKey) && x in g
    ensures NoLater(x, g[|g| - 1])
  {
    var i :| 0 <= i < |g| && g[i] == x;
    assert i == |g| - 1 || byKey(g[i], g[|g| - 1]);
    KeyLeqMeans(x, g[|g| - 1]);
  }

  lemma LatestIsLast(data: Accumulator, g: seq<Record>)
    requires Describes(data, g) && Sorted(g, byKey) && g != []
    ensures var r := g[|g| - 1];
            && r in g && r.message == data.latestMessage && r.sequence == data.latestSequence
            && data.last == Some(r.occurredAt) && forall x :: x in g ==> NoLater(x, r)
  {
    hide TellsWorst, TotalDuration, Sorted;
    var r := g[|g| - 1];
    forall x | x in g ensures NoLater(x, r) { LastIsLatest(g, x); }
  }

  lemma WorstIsWorst(data: Accumulator, g: seq<Record>)
    requires Describes(data, g) && g != []
    ensures exists r :: r in g && LevelOf(r) == data.worstLevel && forall x :: x in g ==> RankOf(x) <= RankOf(r)
  {
    hide TellsTimes, TotalDuration;
    var k: nat :| IsWorst(g, k) && data.worstLevel == LevelOf(g[k]) && data.bestRank == RankOf(g[k]);
    assert g[k] in g;
    forall x | x in g ensures RankOf(x) <= RankOf(g[k]) {
      var i :| 0 <= i < |g| && g[i] == x;
    }
  }

  /**
   Every summary describes exactly the records of its stage, in their stable order; the stages are
   those that occur, each once, in ascending order with the unnamed stage first.
   */
  lemma SummariesMean(records: seq<Record>)
    ensures var result := Summarized(Sort(records, byKey));
            && StagesAscend(result)
            && (forall s :: s in result ==> Faithful(s, records))
            && forall stage :: HasSummary(result, stage) <==> Occurs(stage, records)
  {
    var ordered := Sort(records, byKey);
    var unsorted := Unsorted(ordered, StagesSeen(ordered));
    SummariesAscend(ordered);
    StageOrderIsTotal();
    hide StagesAscend, Unsorted, StagesSeen, Describes, Sorted, Sort, HasSummary, Occurs;
    forall s ensures s in Summarized(ordered) <==> s in unsorted {
      SortMember(unsorted, byStage, s);
    }
    forall s | s in unsorted ensures Faithful(s, records) {
      UnsortedMember(ordered, s);
      AccumulateDescribes(StageRecords(records, s.stage));
      StageRecordsSorted(records, s.stage);
    }
    forall stage ensures HasSummary(Summarized(ordered), stage) <==> Occurs(stage, records) {
      StageHasSummary(records, stage);
    }
  }

  lemma StageHasSummary(records: seq<Record>, stage: Option<nat>)
    ensures HasSummary(Summarized(Sort(records, byKey)), stage) <==> Occurs(stage, records)
  {
    var ordered := Sort(records, byKey);
    var unsorted := Unsorted(ordered, StagesSeen(ordered));
    StageOrderIsTotal();
    KeyOrderIsTotal();
    if HasSummary(Summarized(ordered), stage) {
      var s :| s in Summarized(ordered) && s.stage == stage;
      SortMember(unsorted, byStage, s);
      UnsortedMember(ordered, s);
      var r :| r in ordered && r.stage == stage;
      SortMember(records, byKey, r);
    }
    if Occurs(stage, records) {
      var r :| r in records && r.stage == stage;
      SortMember(records, byKey, r);
      UnsortedHas(ordered, r);
      SortMember(unsorted, byStage, SummaryOf(ordered, stage));
    }
  }

  lemma StrictlyBefore(a: Summary, b: Summary)
    requires byStage(a, b) && !byStage(b, a)
    ensures b.stage.Some? && (a.stage.Some? ==> a.stage.value < b.stage.value)
  {
  }

  lemma DistinctStages(ordered: seq<Record>)
    ensures DistinctKeys(Unsorted(ordered, StagesSeen(ordered)), byStage)
  {
    var unsorted := Unsorted(ordered, StagesSeen(ordered));
    StagesSeenFacts(ordered);
    StageOrderIsTotal();
    forall i, j | 0 <= i < |unsorted| && 0 <= j < |unsorted| && i != j
      ensures unsorted[i].stage != unsorted[j].stage
    {
      var a, b := if i < j then i else j, if i < j then j else i;
      assert StagesSeen(ordered)[a] != StagesSeen(ordered)[b];
    }
  }

  lemma SortedAscends(result: seq<Summary>)
    requires Sorted(result, byStage) && DistinctKeys(result, byStage)
    ensures StagesAscend(result)
  {
    forall i, j | 0 <= i < j < |result|
      ensures result[j].stage.Some? && (result[i].stage.Some? ==> result[i].stage.value < result[j].stage.value)
    {
      assert byStage(result[i], result[j]) && !(byStage(result[i], result[j]) && byStage(result[j], result[i]));
      StrictlyBefore(result[i], result[j]);
    }
  }

  lemma SummariesAscend(ordered: seq<Record>)
    ensures StagesAscend(Summarized(ordered))
  {
    hide StagesSeen, Unsorted, StagesAscend, Sorted, DistinctKeys, Sort;
    StageOrderIsTotal();
    DistinctStages(ordered);
    var unsorted := Unsorted(ordered, StagesSeen(ordered));
    SortKeepsDistinct(unsorted, byStage);
    SortSorts(unsorted, byStage);
    SortedAscends(Sort(unsorted, byStage));
  }

  // ---------------------------------------------------------------- nothing counted twice

  function EventCount(summaries: seq<Summary>): nat {
    if summaries == [] then 0 else summaries[0].data.count + EventCount(summaries[1..])
  }

  function SizeOfStages(stages: seq<Option<nat>>, records: seq<Record>): nat {
    if stages == [] then 0
    else |Filter(records, OfStage(stages[0]))| + SizeOfStages(stages[1..], records)
  }

  lemma {:induction false} OneMoreRecord(stages: seq<Option<nat>>, records: seq<Record>)
    requires NoRepeats(stages) && records != []
    ensures SizeOfStages(stages, records)
         == SizeOfStages(stages, records[1..]) + if records[0].stage in stages then 1 else 0
  {
    if stages != [] {
      OneMoreRecord(stages[1..], records);
      if stages[0] == records[0].stage {
        assert forall i :: 0 < i < |stages| ==> stages[i] != stages[0];
      }
    }
  }

  lemma {:induction false} StagesPartition(stages: seq<Option<nat>>, records: seq<Record>)
    requires NoRepeats(stages) && forall r :: r in records ==> r.stage in stages
    ensures SizeOfStages(stages, records) == |records|
  {
    if records == [] {
      NoRecords(stages);
    } else {
      OneMoreRecord(stages, records);
      StagesPartition(stages, records[1..]);
    }
  }

  lemma {:induction false} NoRecords(stages: seq<Option<nat>>)
    ensures SizeOfStages(stages, []) == 0
  {
    if stages != [] { NoRecords(stages[1..]); }
  }

  function StagesOf(result: seq<Summary>): seq<Option<nat>> {
    if result == [] then [] else [result[0].stage] + StagesOf(result[1..])
  }

  lemma {:induction false} StagesOfFacts(result: seq<Summary>, ordered: seq<Record>)
    requires forall s :: s in result ==> s.data.count == |Filter(ordered, OfStage(s.stage))|
    ensures |StagesOf(result)| == |result| && forall i :: 0 <= i < |result| ==> StagesOf(result)[i] == result[i].stage
    ensures EventCount(result) == SizeOfStages(StagesOf(result), ordered)
  {
    if result != [] { StagesOfFacts(result[1..], ordered); }
  }

  /** The counts of the summaries add up to the number of records. */
  lemma CountsAddUp(records: seq<Record>)
    ensures EventCount(Summarized(Sort(records, byKey))) == |records|
  {
    var result := Summarized(Sort(records, byKey));
    SummariesMean(records);
    hide Summarized, Sort, Sorted, TotalDuration, TellsTimes, TellsWorst, TellsLatest, HasSummary;
    forall s | s in result ensures s.data.count == |Filter(records, OfStage(s.stage))| {
      assert |multiset(StageRecords(records, s.stage))| == |multiset(Filter(records, OfStage(s.stage)))|;
    }
    forall r | r in records ensures HasSummary(result, r.stage) {
      assert Occurs(r.stage, records);
    }
    StagesOfFacts(result, records);
    hide Faithful;
    forall r | r in records ensures r.stage in StagesOf(result) {
      StageListed(result, r.stage);
    }
    StagesPartition(StagesOf(result), records);
  }

  lemma StageListed(result: seq<Summary>, stage: Option<nat>)
    requires HasSummary(result, stage)
    requires |StagesOf(result)| == |result| && forall i :: 0 <= i < |result| ==> StagesOf(result)[i] == result[i].stage
    ensures stage in StagesOf(result)
  {
  }

  // ---------------------------------------------------------------- the order of the input

  /** With distinct sort keys the summaries do not depend on the order of the records. */
  lemma InputOrderDoesNotMatter(a: seq<Record>, b: seq<Record>)
    requires multiset(a) == multiset(b) && DistinctKeys(a, byKey)
    ensures Summarized(Sort(a, byKey)) == Summarized(Sort(b, byKey))
  {
    KeyOrderIsTotal();
    SortIgnoresInputOrder(a, b, byKey);
  }

  /** With equal keys they do: the latest of two records of one stage is then the one given last. */
  lemma TiesFollowInputOrder(x: Record, y: Record)
    requires KeyLeq(x, y) && KeyLeq(y, x) && x.stage == y.stage && x.message != y.message
    ensures multiset([x, y]) == multiset([y, x])
    ensures Summarized(Sort([x, y], byKey)) != Summarized(Sort([y, x], byKey))
  {
    hide *;
    assert multiset([x, y]) == multiset{x, y} == multiset([y, x]);
    LatestOfTwo(x, y);
    LatestOfTwo(y, x);
    OneOfStage(Summarized(Sort([x, y], byKey)), x.stage);
  }

  lemma OneOfStage(result: seq<Summary>, stage: Option<nat>)
    requires HasSummary(result, stage)
    ensures exists s :: s in result && s.stage == stage
  {
  }

  // The stage of two such records reports the message of the second.
  lemma LatestOfTwo(x: Record, y: Record)
    requires KeyLeq(x, y) && x.stage == y.stage
    ensures HasSummary(Summarized(Sort([x, y], byKey)), x.stage)
    ensures forall s :: s in Summarized(Sort([x, y], byKey)) && s.stage == x.stage ==> s.data.latestMessage == y.message
  {
    TwoSorted(x, y);
    SummariesMean([x, y]);
    hide Summarized, Sort, KeyLeq, TotalDuration, TellsTimes, TellsWorst, StagesAscend, StageRecords, HasSummary;
    assert [x, y][0] in [x, y];
    assert Occurs(x.stage, [x, y]);
  }

  lemma TwoSorted(x: Record, y: Record)
    requires KeyLeq(x, y) && x.stage == y.stage
    ensures StageRecords([x, y], x.stage) == [x, y]
  {
    assert [x, y][1..] == [y];
    assert Sort([y], byKey) == [y];
    FilterAll([x, y], OfStage(x.stage));
  }

  // ---------------------------------------------------------------- the loop

  // The accumulators of the first records, by stage and in the order the stages came up.
  ghost predicate Tallied(stages: map<Option<nat>, Accumulator>, keys: seq<Option<nat>>, records: seq<Record>) {
    && keys == StagesSeen(records)
    && (forall s :: s in stages <==> s in keys)
    && forall s :: s in stages ==> stages[s] == Accumulate(Filter(records, OfStage(s)))
  }

  lemma StageGrows(records: seq<Record>, r: Record, s: Option<nat>)
    ensures Filter(records + [r], OfStage(s)) == if s == r.stage then Filter(records, OfStage(s)) + [r]
                                                 else Filter(records, OfStage(s))
  {
    FilterConcat(records, [r], OfStage(s));
  }

  lemma StagesGrow(records: seq<Record>, r: Record)
    ensures StagesSeen(records + [r]) == if r.stage in StagesSeen(records) then StagesSeen(records)
                                         else StagesSeen(records) + [r.stage]
    ensures r.stage !in StagesSeen(records) ==> Filter(records, OfStage(r.stage)) == []
  {
    assert (records + [r])[..|records|] == records;
    StagesSeenFacts(records);
    if r.stage !in StagesSeen(records) { NoneOfStage(records, r.stage); }
  }

  lemma TallyOne(stages: map<Option<nat>, Accumulator>, keys: seq<Option<nat>>, records: seq<Record>, r: Record)
    requires Tallied(stages, keys, records)
    ensures var before := if r.stage in stages then stages[r.stage] else NOTHING;
            Tallied(stages[r.stage := Add(before, r)], if r.stage in stages then keys else keys + [r.stage], records + [r])
  {
    hide Filter, StagesSeen, Accumulate, Add;
    StagesGrow(records, r);
    AccumulateNothing();
    AccumulateOneMore(Filter(records, OfStage(r.stage)), r);
    forall s { StageGrows(records, r, s); }
  }

  lemma AccumulateNothing()
    ensures Accumulate([]) == NOTHING
  {
  }

  lemma TallyNothing(stages: map<Option<nat>, Accumulator>, keys: seq<Option<nat>>, ordered: seq<Record>)
    requires stages == map[] && keys == []
    ensures Tallied(stages, keys, ordered[..0])
  {
  }

  lemma TallyKeys(stages: map<Option<nat>, Accumulator>, keys: seq<Option<nat>>, ordered: seq<Record>)
    requires Tallied(stages, keys, ordered)
    ensures forall i :: 0 <= i < |keys| ==> keys[i] in stages
  {
  }

  lemma TallyIsUnsorted(stages: map<Option<nat>, Accumulator>, keys: seq<Option<nat>>, ordered: seq<Record>,
                        unsorted: seq<Summary>)
    requires Tallied(stages, keys, ordered) && |unsorted| == |keys|
    requires forall i :: 0 <= i < |keys| ==> unsorted[i] == Summary(keys[i], stages[keys[i]])
    ensures Sort(unsorted, byStage) == Summarized(ordered)
  {
  }

  /** `summarize_event_records`: one accumulator per stage, filled in the stable order. */
  method SummarizeEventRecords(records: seq<Record>) returns (result: seq<Summary>)
    ensures result == Summarized(Sort(records, byKey))
  {
    var ordered := Sort(records, byKey);
    var stages: map<Option<nat>, Accumulator> := map[];
    var keys: seq<Option<nat>> := [];
    hide *;
    TallyNothing(stages, keys, ordered);
    for i := 0 to |ordered|
      invariant Tallied(stages, keys, ordered[..i])
    {
      var record := ordered[i];
      TallyOne(stages, keys, ordered[..i], record);
      assert ordered[..i + 1] == ordered[..i] + [record];
      if record.stage in stages {
        stages := stages[record.stage := Add(stages[record.stage], record)];
      } else {
        stages := stages[record.stage := Add(NOTHING, record)];
        keys := keys + [record.stage];
      }
    }
    assert ordered[..|ordered|] == ordered;
    TallyKeys(stages, keys, ordered);
    var unsorted := seq(|keys|, i requires 0 <= i < |keys| => Summary(keys[i], stages[keys[i]]));
    TallyIsUnsorted(stages, keys, ordered, unsorted);
    result := Sort(unsorted, byStage);
  }

  lemma NoneOfStage(records: seq<Record>, stage: Option<nat>)
    requires forall r :: r in records ==> r.stage != stage
    ensures Filter(records, OfStage(stage)) == []
  {
  }
}
