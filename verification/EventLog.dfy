/**
 Durable event history: records, the filter of a query, the stable order of records, and the
 in-memory log's bounded deletion.
 */
module EventLog {
  import opened Filtering
  import opened Ordering
  import opened Wrappers

  // The dimensions a query can filter on.
  datatype Dimension = TaskId | TaskName | EventType | Scope | ScopeKey | Entity | Level

  /**
   A history record. `uid` is the identity of the record object, `eventId` its string identifier;
   a dimension without a value is absent from `tags`. Stages are numbered in their string order.
   */
  datatype Record = Record(
    uid: nat,
    eventId: int,
    occurredAt: int,
    sequence: Option<int>,
    tags: map<Dimension, string>,
    stage: Option<nat>,
    duration: Option<real>,
    message: Option<string>)

  type Query = map<Dimension, string>

  // Every filter that is set must equal the record's value.
  predicate Matches(r: Record, query: Query) {
    forall d :: d in query ==> d in r.tags && r.tags[d] == query[d]
  }

  /** A filter that is set must be met by the record's own value; without any, every record matches. */
  lemma MatchesMeans(r: Record, query: Query, d: Dimension, value: string)
    requires d !in query
    ensures Matches(r, map[])
    ensures Matches(r, query[d := value]) <==> Matches(r, query) && d in r.tags && r.tags[d] == value
  {
    if Matches(r, query[d := value]) {
      assert forall x :: x in query ==> x in query[d := value] && query[d := value][x] == query[x];
      assert d in query[d := value];
    }
  }

  function SequenceKey(r: Record): int {
    match r.sequence case Some(n) => n case None => 0
  }

  // The stable order: time, then sequence number, then event id.
  predicate KeyLeq(a: Record, b: Record) {
    if a.occurredAt != b.occurredAt then a.occurredAt < b.occurredAt
    else if SequenceKey(a) != SequenceKey(b) then SequenceKey(a) < SequenceKey(b)
    else a.eventId <= b.eventId
  }

  const byKey: (Record, Record) -> bool := (a, b) => KeyLeq(a, b)

  // Time first, then the sequence number, a missing one counting as 0, then the event id.
  predicate NoLater(a: Record, b: Record) {
    var m := match a.sequence case Some(x) => x case None => 0;
    var n := match b.sequence case Some(x) => x case None => 0;
    && a.occurredAt <= b.occurredAt
    && (a.occurredAt == b.occurredAt ==> m <= n)
    && (a.occurredAt == b.occurredAt && m == n ==> a.eventId <= b.eventId)
  }

  lemma KeyLeqMeans(a: Record, b: Record)
    ensures KeyLeq(a, b) <==> NoLater(a, b)
  {
  }

  lemma KeyOrderIsTotal()
    ensures TotalPreorder(byKey)
  {
  }

  // ---------------------------------------------------------------- identities

  function Uids(records: seq<Record>): set<nat> {
    if records == [] then {} else {records[0].uid} + Uids(records[1..])
  }

  // No record object occurs twice.
  ghost predicate Distinct(records: seq<Record>) {
    |Uids(records)| == |records|
  }

  lemma {:induction false} UidsAtMost(records: seq<Record>)
    ensures |Uids(records)| <= |records|
  {
    if records != [] { UidsAtMost(records[1..]); }
  }

  lemma {:induction false} UidsMember(records: seq<Record>, id: nat)
    ensures id in Uids(records) <==> exists r :: r in records && r.uid == id
  {
    if records != [] { UidsMember(records[1..], id); }
  }

  lemma {:induction false} UidsConcat(a: seq<Record>, b: seq<Record>)
    ensures Uids(a + b) == Uids(a) + Uids(b)
  {
    if a == [] {
      assert a + b == b;
    } else {
      assert (a + b)[1..] == a[1..] + b;
      UidsConcat(a[1..], b);
    }
  }

  lemma DistinctTail(records: seq<Record>)
    requires Distinct(records) && records != []
    ensures Distinct(records[1..]) && records[0].uid !in Uids(records[1..])
  {
    UidsAtMost(records[1..]);
    AddOne(Uids(records[1..]), records[0].uid);
  }

  lemma AddOne(s: set<nat>, x: nat)
    ensures |{x} + s| == |s| + if x in s then 0 else 1
  {
    if x in s { assert {x} + s == s; }
  }

  lemma DistinctPrefix(records: seq<Record>, n: nat)
    requires Distinct(records) && n <= |records|
    ensures Distinct(records[..n])
  {
    assert records == records[..n] + records[n..];
    UidsConcat(records[..n], records[n..]);
    UidsAtMost(records[..n]);
    UidsAtMost(records[n..]);
    UnionAtMost(Uids(records[..n]), Uids(records[n..]));
  }

  lemma UnionAtMost(a: set<nat>, b: set<nat>)
    ensures |a + b| <= |a| + |b|
  {
  }

  lemma {:induction false} DistinctFilter(records: seq<Record>, keep: Record -> bool)
    requires Distinct(records)
    ensures Distinct(Filter(records, keep)) && Uids(Filter(records, keep)) <= Uids(records)
  {
    if records != [] {
      DistinctTail(records);
      DistinctFilter(records[1..], keep);
      var tail := Filter(records[1..], keep);
      if keep(records[0]) {
        assert Filter(records, keep)[1..] == tail;
      } else {
        assert Filter(records, keep) == tail;
      }
    }
  }

  lemma DistinctSort(records: seq<Record>)
    requires Distinct(records)
    ensures Distinct(Sort(records, byKey)) && Uids(Sort(records, byKey)) == Uids(records)
  {
    KeyOrderIsTotal();
    var sorted := Sort(records, byKey);
    forall id ensures id in Uids(sorted) <==> id in Uids(records) {
      UidsMember(sorted, id);
      UidsMember(records, id);
      forall r ensures r in sorted <==> r in records { SortMember(records, byKey, r); }
    }
    assert Uids(sorted) == Uids(records);
    SortSorts(records, byKey);
    assert |sorted| == |multiset(sorted)| == |multiset(records)| == |records|;
  }

  // ---------------------------------------------------------------- deleting a batch

  function Count(records: seq<Record>, p: Record -> bool): nat {
    |Filter(records, p)|
  }

  function Survives(ids: set<nat>): Record -> bool {
    (r: Record) => r.uid !in ids
  }

  // Erasing records of one kind takes exactly that many away from the count of the kind.
  lemma {:induction false} EraseCounts(records: seq<Record>, ids: set<nat>, p: Record -> bool)
    requires Distinct(records) && ids <= Uids(Filter(records, p))
    ensures Count(records, p) == Count(Filter(records, Survives(ids)), p) + |ids|
  {
    if records == [] {
      assert ids == {};
    } else {
      DistinctTail(records);
      var r, rest := records[0], records[1..];
      DistinctFilter(rest, p);
      assert p(r) ==> Filter(records, p)[1..] == Filter(rest, p);
      assert !p(r) ==> Filter(records, p) == Filter(rest, p);
      if r.uid in ids {
        EraseCounts(rest, ids - {r.uid}, p);
        AbsentDoesNotMatter(rest, ids, r.uid);
        assert Filter(records, Survives(ids)) == Filter(rest, Survives(ids));
      } else {
        EraseCounts(rest, ids, p);
        assert Filter(records, Survives(ids)) == [r] + Filter(rest, Survives(ids));
        assert !p(r) ==> Filter([r] + Filter(rest, Survives(ids)), p) == Filter(Filter(rest, Survives(ids)), p);
      }
    }
  }

  lemma {:induction false} AbsentDoesNotMatter(records: seq<Record>, ids: set<nat>, id: nat)
    requires id !in Uids(records)
    ensures Filter(records, Survives(ids)) == Filter(records, Survives(ids - {id}))
  {
    if records != [] { AbsentDoesNotMatter(records[1..], ids, id); }
  }

  // The oldest `limit` records that meet the condition.
  function Oldest(records: seq<Record>, doomed: Record -> bool, limit: Option<nat>): seq<Record> {
    var sorted := Sort(Filter(records, doomed), byKey);
    match limit
    case Some(n) => if n < |sorted| then sorted[..n] else sorted
    case None => sorted
  }

  function Cleanup(records: seq<Record>, doomed: Record -> bool, limit: Option<nat>): seq<Record> {
    Filter(records, Survives(Uids(Oldest(records, doomed, limit))))
  }

  lemma OldestFacts(records: seq<Record>, doomed: Record -> bool, limit: Option<nat>)
    requires Distinct(records)
    ensures var gone := Oldest(records, doomed, limit);
            && Distinct(gone)
            && Uids(gone) <= Uids(Filter(records, doomed))
            && (forall r :: r in gone ==> r in records && doomed(r))
            && |gone| == match limit
                         case Some(n) => Min(n, Count(records, doomed))
                         case None => Count(records, doomed)
  {
    var found := Filter(records, doomed);
    DistinctFilter(records, doomed);
    DistinctSort(found);
    KeyOrderIsTotal();
    var sorted := Sort(found, byKey);
    forall r ensures r in sorted <==> r in records && doomed(r) {
      SortMember(found, byKey, r);
      FilterMember(records, doomed, r);
    }
    assert |sorted| == |found| by {
      if found != [] { SortMember(found, byKey, found[0]); } else { SortSorts(found, byKey); }
    }
    hide Sort;
    if limit.Some? && limit.value < |sorted| {
      DistinctPrefix(sorted, limit.value);
      assert sorted == sorted[..limit.value] + sorted[limit.value..];
      UidsConcat(sorted[..limit.value], sorted[limit.value..]);
    }
  }

  function Min(a: int, b: int): int {
    if a < b then a else b
  }

  lemma {:induction false} SameUidSameRecord(records: seq<Record>, a: Record, b: Record)
    requires Distinct(records) && a in records && b in records && a.uid == b.uid
    ensures a == b
  {
    DistinctTail(records);
    UidsMember(records[1..], records[0].uid);
    if a != records[0] && b != records[0] {
      SameUidSameRecord(records[1..], a, b);
    }
  }

  /** A cleanup deletes the oldest doomed records, as many as the limit allows, and no other. */
  lemma CleanupMeans(records: seq<Record>, doomed: Record -> bool, limit: Option<nat>)
    requires Distinct(records)
    ensures var next := Cleanup(records, doomed, limit);
            var n := match limit case Some(m) => Min(m, Count(records, doomed)) case None => Count(records, doomed);
            && Distinct(next)
            && |next| == |records| - n
            && (forall r :: r in records && !doomed(r) ==> r in next)
            && forall a, b :: a in records && a !in next && b in next && doomed(b) ==> doomed(a) && NoLater(a, b)
  {
    var gone := Oldest(records, doomed, limit);
    var next := Cleanup(records, doomed, limit);
    OldestFacts(records, doomed, limit);
    DistinctFilter(records, Survives(Uids(gone)));
    FilterAll(records, Anything());
    FilterAll(next, Anything());
    DistinctFilter(records, doomed);
    EraseCounts(records, Uids(gone), Anything());
    forall r | r in records ensures r in next <==> r !in gone {
      SurvivorNotGone(records, gone, r);
    }
    forall a, b | a in records && a !in next && b in next && doomed(b) ensures doomed(a) && NoLater(a, b) {
      FilterMember(records, Survives(Uids(gone)), b);
      OldestFirst(records, doomed, limit, a, b);
      KeyLeqMeans(a, b);
    }
  }

  function Anything(): Record -> bool {
    (r: Record) => true
  }

  lemma SurvivorNotGone(records: seq<Record>, gone: seq<Record>, r: Record)
    requires Distinct(records) && r in records && forall g :: g in gone ==> g in records
    ensures r in Filter(records, Survives(Uids(gone))) <==> r !in gone
  {
    FilterMember(records, Survives(Uids(gone)), r);
    UidsMember(gone, r.uid);
    if r.uid in Uids(gone) {
      var g :| g in gone && g.uid == r.uid;
      SameUidSameRecord(records, g, r);
    }
  }

  lemma OldestFirst(records: seq<Record>, doomed: Record -> bool, limit: Option<nat>, a: Record, b: Record)
    requires a in Oldest(records, doomed, limit)
    requires b in records && doomed(b) && b !in Oldest(records, doomed, limit)
    ensures KeyLeq(a, b)
  {
    var found := Filter(records, doomed);
    FilterMember(records, doomed, b);
    KeyOrderIsTotal();
    SortMember(found, byKey, b);
    SortSorts(found, byKey);
    var sorted := Sort(found, byKey);
    var oldest := Oldest(records, doomed, limit);
    var i :| 0 <= i < |oldest| && oldest[i] == a;
    var j :| 0 <= j < |sorted| && sorted[j] == b;
    forall k | 0 <= k < |oldest| ensures sorted[k] in oldest {
      assert oldest[k] == sorted[k];
    }
    assert sorted[i] == a && byKey(sorted[i], sorted[j]);
  }
}
