/**
 The record store and the service paths that settle an attempt, as objects that update records in
 place. Every write is the corresponding step of `Attempts` on one record and leaves the rest alone.
 */
module TaskBackend {
  import opened Filtering
  import opened Ordering
  import opened Wrappers
  import Attempts

  type Record = Attempts.Record

  // An execution reference; `lease` marks the temporary one of an external dispatch.
  datatype Reference = Reference(value: int, lease: bool)

  // A stored record: what `Attempts` speaks of, and the times and references around it.
  datatype Row = Row(
    core: Record,
    priority: int,
    queuedAt: int,
    scheduledAt: Option<int>,
    expiresAt: Option<int>,
    heartbeatAt: Option<int>,
    reference: Option<Reference>)
  {
    predicate Due(now: int) {
      scheduledAt.None? || scheduledAt.value <= now
    }

    predicate Overdue(now: int) {
      reference.None? && expiresAt.Some? && expiresAt.value <= now
    }

    predicate Leased() {
      reference.Some? && reference.value.lease
    }

    predicate Stale(cutoff: int) {
      core.status.Running? && (heartbeatAt.None? || heartbeatAt.value < cutoff)
    }
  }

  type Rows = map<int, Row>

  // ---------------------------------------------------------------- the writes of one row

  // A step contract lifted to the store: no row, no write.
  function OnRow(rows: Rows, id: int, step: Row -> Option<Row>): Option<Row> {
    if id in rows then step(rows[id]) else None
  }

  datatype ClaimResult = Refused | Claimed(row: Row) | Lapsed(row: Row)

  // A due, unleased record under its fences is claimed, or expires when it is overdue.
  function ClaimRow(row: Row, now: int, expected: Option<nat>, reference: Option<Reference>): ClaimResult {
    if !row.core.Claimable() || !row.Due(now) || row.Leased()
       || (expected.Some? && row.core.retryCount != expected.value)
       || (reference.Some? && row.reference != reference)
    then Refused
    else if row.Overdue(now) then Lapsed(row.(core := row.core.(status := Attempts.Expired), heartbeatAt := None))
    else Claimed(row.(core := row.core.(status := Attempts.Running), heartbeatAt := Some(now)))
  }

  // Either way the claim is a step of `Attempts` on the record.
  lemma ClaimIsAttemptStep(row: Row, now: int, expected: Option<nat>, reference: Option<Reference>)
    ensures match ClaimRow(row, now, expected, reference)
            case Refused => true
            case Claimed(t) => Attempts.Claim(row.core) == Some(t.core)
            case Lapsed(t) => Attempts.ExpireOverdue(row.core) == Some(t.core)
  {
  }

  // A settled record keeps no heartbeat.
  function Settled(row: Row, core: Option<Record>): Option<Row> {
    match core
    case Some(c) => Some(row.(core := c, heartbeatAt := None))
    case None => None
  }

  // A record that went back to the queue was queued at `queuedAt` and is due at `retryAt`.
  function Requeued(row: Row, core: Option<Record>, queuedAt: int, retryAt: Option<int>): Option<Row> {
    match core
    case Some(c) =>
      var settled := row.(core := c, heartbeatAt := None);
      Some(if c.Claimable() then settled.(queuedAt := queuedAt, scheduledAt := retryAt) else settled)
    case None => None
  }

  function Delayed(queuedAt: int, retryAt: Option<int>): bool {
    retryAt.Some? && retryAt.value > queuedAt
  }

  function InterruptRow(row: Row, expected: nat, worker: int, queuedAt: int): Option<Row> {
    match Requeued(row, Attempts.InterruptTask(row.core, expected, worker), queuedAt, None)
    case Some(t) => Some(t.(reference := None))
    case None => None
  }

  // How recovery treats a record: the retry schedule from its metadata, and the priority policy.
  datatype Recovery = Recovery(now: int, delay: Record -> Option<int>, priority: int -> int) {
    function RetryAt(r: Record): Option<int> {
      match delay(r)
      case Some(d) => Some(now + d)
      case None => None
    }

    // A stale record after the sweep.
    function Recovered(row: Row): Row {
      var retryAt := RetryAt(row.core);
      match Requeued(row, Attempts.RequeueStale(row.core, retryAt.Some?), now, retryAt)
      case Some(t) => if t.core.Claimable() then t.(priority := priority(row.priority)) else t
      case None => row
    }
  }

  /** A stale record goes back to the queue at the time its schedule gives, or fails for good. */
  lemma RecoveredMeans(recovery: Recovery, row: Row)
    requires row.core.status == Attempts.Running
    ensures var t := recovery.Recovered(row);
            && t.heartbeatAt == None && t.expiresAt == row.expiresAt && t.reference == row.reference
            && if row.core.requeueOnStale && row.core.retryCount - row.core.interruptions < row.core.maxRetries
               then && t.core.status == (if recovery.delay(row.core).Some? then Attempts.Scheduled else Attempts.Pending)
                    && t.core.retryCount == row.core.retryCount + 1 && t.core.worker == row.core.worker
                    && t.scheduledAt == (match recovery.delay(row.core) case Some(d) => Some(recovery.now + d) case None => None)
                    && t.queuedAt == recovery.now && t.priority == recovery.priority(row.priority)
               else t.core == row.core.(status := Attempts.Failed) && t.priority == row.priority
  {
  }

  // ---------------------------------------------------------------- which records are stale

  const MIN_DATETIME := 0

  function LastHeartbeat(rows: Rows, id: int): int {
    if id in rows && rows[id].heartbeatAt.Some? then rows[id].heartbeatAt.value else MIN_DATETIME
  }

  // Oldest heartbeat first, then by id.
  predicate StalerOrSame(rows: Rows, a: int, b: int) {
    if LastHeartbeat(rows, a) != LastHeartbeat(rows, b) then LastHeartbeat(rows, a) < LastHeartbeat(rows, b)
    else a <= b
  }

  function ByStaleness(rows: Rows): (int, int) -> bool {
    (a: int, b: int) => StalerOrSame(rows, a, b)
  }

  function IsStale(rows: Rows, cutoff: int): int -> bool {
    (id: int) => id in rows && rows[id].Stale(cutoff)
  }

  // The records one sweep takes up, in its order.
  function Swept(rows: Rows, ids: seq<int>, cutoff: int, limit: Option<nat>): seq<int> {
    var stale := Sort(Filter(ids, IsStale(rows, cutoff)), ByStaleness(rows));
    if limit.Some? && limit.value < |stale| then stale[..limit.value] else stale
  }

  ghost predicate NoRepeats(ids: seq<int>) {
    forall i, j :: 0 <= i < j < |ids| ==> ids[i] != ids[j]
  }

  lemma {:induction false} FilterNoRepeats(ids: seq<int>, keep: int -> bool)
    requires NoRepeats(ids)
    ensures NoRepeats(Filter(ids, keep))
  {
    if ids != [] {
      FilterNoRepeats(ids[1..], keep);
      FilterMember(ids[1..], keep, ids[0]);
      assert ids[0] !in ids[1..];
      var rest := Filter(ids[1..], keep);
      assert forall i :: 0 <= i < |rest| ==> rest[i] in rest;
    }
  }

  lemma StalenessIsTotal(rows: Rows)
    ensures TotalPreorder(ByStaleness(rows))
    ensures forall a, b :: ByStaleness(rows)(a, b) && ByStaleness(rows)(b, a) ==> a == b
  {
  }

  lemma StaleSorted(rows: Rows, ids: seq<int>, cutoff: int)
    requires NoRepeats(ids)
    ensures var stale := Sort(Filter(ids, IsStale(rows, cutoff)), ByStaleness(rows));
            && (forall id :: id in stale <==> id in ids && id in rows && rows[id].Stale(cutoff))
            && |stale| == |Filter(ids, IsStale(rows, cutoff))|
            && forall i, j :: 0 <= i < j < |stale| ==> stale[i] != stale[j] && StalerOrSame(rows, stale[i], stale[j])
  {
    var found := Filter(ids, IsStale(rows, cutoff));
    var leq := ByStaleness(rows);
    StalenessIsTotal(rows);
    FilterNoRepeats(ids, IsStale(rows, cutoff));
    forall i, j | 0 <= i < |found| && 0 <= j < |found| && i != j ensures !(leq(found[i], found[j]) && leq(found[j], found[i])) {
      assert found[if i < j then i else j] != found[if i < j then j else i];
    }
    SortKeepsDistinct(found, leq);
    SortSorts(found, leq);
    forall id ensures id in Sort(found, leq) <==> id in ids && id in rows && rows[id].Stale(cutoff) {
      SortMember(found, leq, id);
      FilterMember(ids, IsStale(rows, cutoff), id);
    }
    SortMember(found, leq, 0);
    var stale := Sort(found, leq);
    forall i, j | 0 <= i < j < |stale| ensures stale[i] != stale[j] && StalerOrSame(rows, stale[i], stale[j]) {
      assert leq(stale[i], stale[j]) && !(leq(stale[i], stale[j]) && leq(stale[j], stale[i]));
    }
  }

  /**
   A sweep takes up running records with an old heartbeat or none, as many as the limit allows, each
   once and the stalest first: what it leaves is no staler than what it takes.
   */
  lemma SweptMeans(rows: Rows, ids: seq<int>, cutoff: int, limit: Option<nat>)
    requires NoRepeats(ids)
    ensures var swept := Swept(rows, ids, cutoff, limit);
            var n := |Filter(ids, IsStale(rows, cutoff))|;
            && NoRepeats(swept)
            && |swept| == (if limit.Some? && limit.value < n then limit.value else n)
            && (forall id :: id in swept ==> id in ids && id in rows && rows[id].Stale(cutoff))
            && forall a, b :: a in swept && b in ids && b in rows && rows[b].Stale(cutoff) && b !in swept ==>
                 StalerOrSame(rows, a, b)
  {
    StaleSorted(rows, ids, cutoff);
    var stale := Sort(Filter(ids, IsStale(rows, cutoff)), ByStaleness(rows));
    var swept := Swept(rows, ids, cutoff, limit);
    hide Sort, Filter, StalerOrSame;
    forall a, b | a in swept && b in stale && b !in swept ensures StalerOrSame(rows, a, b) {
      var i :| 0 <= i < |swept| && swept[i] == a;
      var j :| 0 <= j < |stale| && stale[j] == b;
      forall k | 0 <= k < |swept| ensures stale[k] in swept { assert swept[k] == stale[k]; }
      assert stale[i] == a;
    }
  }

  /** Stale is a running record whose heartbeat is missing or before the cutoff; the missing ones come first. */
  lemma StaleMeans(rows: Rows, a: int, b: int, cutoff: int)
    requires a in rows && b in rows
    ensures rows[a].Stale(cutoff)
       <==> rows[a].core.status == Attempts.Running
            && match rows[a].heartbeatAt case None => true case Some(t) => t < cutoff
    ensures StalerOrSame(rows, a, b) && rows[a].heartbeatAt.Some? && rows[b].heartbeatAt.Some? ==>
              rows[a].heartbeatAt.value <= rows[b].heartbeatAt.value
    ensures rows[a].heartbeatAt.None? && rows[b].heartbeatAt.Some? && rows[b].heartbeatAt.value > MIN_DATETIME ==>
              StalerOrSame(rows, a, b) && !StalerOrSame(rows, b, a)
  {
  }

  // ---------------------------------------------------------------- the backend

  datatype StaleResult = StaleResult(requeued: seq<int>, failed: seq<int>, handlerNeeded: seq<int>)

  function Requeues(rows: Rows): int -> bool {
    (id: int) => id in rows && rows[id].core.requeueOnStale && rows[id].core.Consumed() < rows[id].core.maxRetries
  }

  function Fails(rows: Rows): int -> bool {
    (id: int) => !Requeues(rows)(id)
  }

  function NeedsHandler(rows: Rows): int -> bool {
    (id: int) => id in rows && !rows[id].core.requeueOnStale
  }

  // The three lists a sweep reports.
  function Report(rows: Rows, swept: seq<int>): StaleResult {
    StaleResult(Filter(swept, Requeues(rows)), Filter(swept, Fails(rows)), Filter(swept, NeedsHandler(rows)))
  }

  /** The report lists the swept records that went back to the queue, those that failed, and whose handler is needed. */
  lemma ReportMeans(rows: Rows, swept: seq<int>, recovery: Recovery, id: int)
    requires forall x :: x in swept ==> x in rows && rows[x].core.status == Attempts.Running
    ensures var report := Report(rows, swept);
            && (id in report.requeued <==> id in swept && recovery.Recovered(rows[id]).core.status != Attempts.Failed)
            && (id in report.failed <==> id in swept && recovery.Recovered(rows[id]).core.status == Attempts.Failed)
            && (id in report.handlerNeeded <==> id in swept && !rows[id].core.requeueOnStale)
  {
    FilterMember(swept, Requeues(rows), id);
    FilterMember(swept, Fails(rows), id);
    FilterMember(swept, NeedsHandler(rows), id);
    if id in swept { RecoveredMeans(recovery, rows[id]); }
  }

  // The first `i` swept rows are recovered, and no other row changed.
  ghost predicate SweptSoFar(before: Rows, rows: Rows, swept: seq<int>, i: nat, recovery: Recovery, report: StaleResult) {
    && i <= |swept| && rows.Keys == before.Keys
    && (forall id :: id in rows ==>
          rows[id] == if id in swept[..i] then recovery.Recovered(before[id]) else before[id])
    && report == Report(before, swept[..i])
  }

  // What the sweep does with one record.
  function SweepOne(row: Row, recovery: Recovery): Row {
    if row.core.requeueOnStale && row.core.retryCount - row.core.interruptions < row.core.maxRetries then
      var retryAt := recovery.RetryAt(row.core);
      row.(core := row.core.(status := if retryAt.Some? then Attempts.Scheduled else Attempts.Pending,
                             retryCount := row.core.retryCount + 1),
           queuedAt := recovery.now, scheduledAt := retryAt, priority := recovery.priority(row.priority),
           heartbeatAt := None)
    else row.(core := row.core.(status := Attempts.Failed), heartbeatAt := None)
  }

  function ReportOne(report: StaleResult, id: int, core: Record): StaleResult {
    if core.requeueOnStale && core.retryCount - core.interruptions < core.maxRetries
    then report.(requeued := report.requeued + [id])
    else report.(failed := report.failed + [id],
                 handlerNeeded := report.handlerNeeded + if core.requeueOnStale then [] else [id])
  }

  lemma ReportGrows(before: Rows, swept: seq<int>, i: nat)
    requires i < |swept| && swept[i] in before
    ensures Report(before, swept[..i + 1]) == ReportOne(Report(before, swept[..i]), swept[i], before[swept[i]].core)
  {
    assert swept[..i + 1] == swept[..i] + [swept[i]];
    FilterConcat(swept[..i], [swept[i]], Requeues(before));
    FilterConcat(swept[..i], [swept[i]], Fails(before));
    FilterConcat(swept[..i], [swept[i]], NeedsHandler(before));
  }

  lemma SweepStep(before: Rows, rows: Rows, swept: seq<int>, i: nat, recovery: Recovery, report: StaleResult)
    requires SweptSoFar(before, rows, swept, i, recovery, report) && i < |swept| && NoRepeats(swept)
    requires forall id :: id in swept ==> id in before && before[id].core.status.Running?
    ensures swept[i] in rows && rows[swept[i]] == before[swept[i]]
    ensures SweptSoFar(before, rows[swept[i] := SweepOne(rows[swept[i]], recovery)], swept, i + 1, recovery,
                       ReportOne(report, swept[i], before[swept[i]].core))
  {
    assert swept[i] in swept && swept[i] !in swept[..i];
    assert swept[..i + 1] == swept[..i] + [swept[i]];
    ReportGrows(before, swept, i);
    hide Report, ReportOne;
  }

  class Backend {
    var rows: Rows
    var ids: seq<int>                          // insertion order of the records

    ghost predicate Valid()
      reads this
    {
      NoRepeats(ids) && forall id :: id in ids <==> id in rows
    }

    constructor ()
      ensures Valid() && rows == map[]
    {
      rows, ids := map[], [];
    }

    // `enqueue` of a record under a new id.
    method AddRecord(id: int, row: Row)
      requires Valid() && id !in rows
      modifies this
      ensures Valid() && rows == old(rows)[id := row] && ids == old(ids) + [id]
    {
      rows := rows[id := row];
      ids := ids + [id];
    }

    method ClaimTask(id: int, now: int, expected: Option<nat>, reference: Option<Reference>)
      returns (claimed: Option<Row>, expired: Option<Row>)
      modifies this`rows
      ensures var result := if id in old(rows) then ClaimRow(old(rows)[id], now, expected, reference) else Refused;
              && claimed == (if result.Claimed? then Some(result.row) else None)
              && expired == (if result.Lapsed? then Some(result.row) else None)
              && rows == (if result.Refused? then old(rows) else old(rows)[id := result.row])
      ensures claimed.Some? ==>
                var row := old(rows)[id];
                && (row.core.status == Attempts.Pending || row.core.status == Attempts.Scheduled)
                && (row.scheduledAt.Some? ==> row.scheduledAt.value <= now)
                && (row.reference.Some? ==> !row.reference.value.lease)
                && (expected.Some? ==> row.core.retryCount == expected.value)
                && (reference.Some? ==> row.reference == reference)
                && (row.reference.None? && row.expiresAt.Some? ==> now < row.expiresAt.value)
                && claimed.value == row.(core := row.core.(status := Attempts.Running), heartbeatAt := Some(now))
                && rows == old(rows)[id := claimed.value]
      ensures expired.Some? ==>
                var row := old(rows)[id];
                && row.reference.None? && row.expiresAt.Some? && row.expiresAt.value <= now
                && expired.value == row.(core := row.core.(status := Attempts.Expired), heartbeatAt := None)
                && rows == old(rows)[id := expired.value]
      ensures claimed.None? && expired.None? && id in old(rows) ==>
                var row := old(rows)[id];
                || (row.core.status != Attempts.Pending && row.core.status != Attempts.Scheduled)
                || (row.scheduledAt.Some? && now < row.scheduledAt.value)
                || (row.reference.Some? && row.reference.value.lease)
                || (expected.Some? && row.core.retryCount != expected.value)
                || (reference.Some? && row.reference != reference)
    {
      if id !in rows {
        return None, None;
      }
      var row := rows[id];
      if !(row.core.status.Pending? || row.core.status.Scheduled?)
         || (row.scheduledAt.Some? && row.scheduledAt.value > now)
         || (row.reference.Some? && row.reference.value.lease)
         || (expected.Some? && row.core.retryCount != expected.value)
         || (reference.Some? && row.reference != reference) {
        return None, None;
      }
      if row.reference.None? && row.expiresAt.Some? && row.expiresAt.value <= now {
        row := row.(core := row.core.(status := Attempts.Expired), heartbeatAt := None);
        rows := rows[id := row];
        return None, Some(row);
      }
      row := row.(core := row.core.(status := Attempts.Running), heartbeatAt := Some(now));
      rows := rows[id := row];
      return Some(row), None;
    }

    method AssignWorker(id: int, worker: int, expected: nat) returns (r: Option<Row>)
      modifies this`rows
      ensures r == OnRow(old(rows), id, (x: Row) => match Attempts.AssignWorker(x.core, worker, expected)
                                             case Some(c) => Some(x.(core := c))
                                             case None => None)
      ensures rows == (if r.Some? then old(rows)[id := r.value] else old(rows))
      ensures r.Some? <==> id in old(rows) && old(rows)[id].core.status == Attempts.Running
                           && old(rows)[id].core.retryCount == expected
      ensures r.Some? ==> r.value == old(rows)[id].(core := old(rows)[id].core.(worker := Some(worker)))
    {
      if id !in rows || !rows[id].core.status.Running? || rows[id].core.retryCount != expected {
        return None;
      }
      rows := rows[id := rows[id].(core := rows[id].core.(worker := Some(worker)))];
      r := Some(rows[id]);
    }

    method CompleteTask(id: int, expected: nat) returns (r: Option<Row>)
      modifies this`rows
      ensures r == OnRow(old(rows), id, (x: Row) => Settled(x, Attempts.CompleteTask(x.core, expected)))
      ensures r.Some? <==> id in old(rows) && old(rows)[id].core.status == Attempts.Running
                           && old(rows)[id].core.retryCount == expected
      ensures r.Some? ==> r.value == old(rows)[id].(core := old(rows)[id].core.(status := Attempts.Completed),
                                                    heartbeatAt := None)
      ensures rows == (if r.Some? then old(rows)[id := r.value] else old(rows))
    {
      if id !in rows || !rows[id].core.status.Running? || rows[id].core.retryCount != expected {
        return None;
      }
      var row := rows[id];
      rows := rows[id := row.(core := row.core.(status := Attempts.Completed), heartbeatAt := None)];
      r := Some(rows[id]);
    }

    method FailTask(id: int, retry: bool, retryAt: Option<int>, queuedAt: int, expected: nat) returns (r: Option<Row>)
      modifies this`rows
      ensures r == OnRow(old(rows), id,
                         (x: Row) => Requeued(x, Attempts.FailTask(x.core, retry, Delayed(queuedAt, retryAt), expected),
                                       queuedAt, retryAt))
      ensures rows == (if r.Some? then old(rows)[id := r.value] else old(rows))
      ensures r.Some? <==> id in old(rows) && old(rows)[id].core.status == Attempts.Running
                           && old(rows)[id].core.retryCount == expected
      ensures r.Some? ==>
                var core := old(rows)[id].core;
                && r.value.heartbeatAt == None
                && if retry && core.retryCount - core.interruptions < core.maxRetries
                   then && r.value.core.status == (if retryAt.Some? && retryAt.value > queuedAt then Attempts.Scheduled
                                                   else Attempts.Pending)
                        && r.value.core.retryCount == expected + 1
                        && r.value.scheduledAt == retryAt && r.value.queuedAt == queuedAt
                   else r.value.core == core.(status := Attempts.Failed)
    {
      if id !in rows || !rows[id].core.status.Running? || rows[id].core.retryCount != expected {
        return None;
      }
      var row := rows[id];
      var core := row.core;
      if retry && core.retryCount - core.interruptions < core.maxRetries {
        var later := retryAt.Some? && retryAt.value > queuedAt;
        row := row.(core := core.(retryCount := core.retryCount + 1,
                                  status := if later then Attempts.Scheduled else Attempts.Pending),
                    queuedAt := queuedAt, scheduledAt := retryAt, heartbeatAt := None);
      } else {
        row := row.(core := core.(status := Attempts.Failed), heartbeatAt := None);
      }
      rows := rows[id := row];
      r := Some(row);
    }

    method InterruptTask(id: int, expected: nat, worker: int, queuedAt: int) returns (r: Option<Row>)
      modifies this`rows
      ensures r == OnRow(old(rows), id, (x: Row) => InterruptRow(x, expected, worker, queuedAt))
      ensures r.Some? <==> id in old(rows) && old(rows)[id].core.status == Attempts.Running
                           && old(rows)[id].core.retryCount == expected && old(rows)[id].core.worker == Some(worker)
      ensures r.Some? ==>
                && r.value.core.status == Attempts.Pending && r.value.core.retryCount == expected + 1
                && r.value.core.interruptions == old(rows)[id].core.interruptions + 1 && r.value.core.worker == None
                && r.value.scheduledAt == None && r.value.heartbeatAt == None && r.value.reference == None
                && r.value.queuedAt == queuedAt
      ensures rows == (if r.Some? then old(rows)[id := r.value] else old(rows))
    {
      if id !in rows || !rows[id].core.status.Running? || rows[id].core.retryCount != expected
         || rows[id].core.worker != Some(worker) {
        return None;
      }
      var row := rows[id];
      var core := row.core.(status := Attempts.Pending, worker := None,
                            interruptions := row.core.interruptions + 1, retryCount := row.core.retryCount + 1);
      row := row.(core := core, queuedAt := queuedAt, scheduledAt := None, heartbeatAt := None, reference := None);
      rows := rows[id := row];
      r := Some(row);
    }

    // The sweep over the stale records, the stalest first and at most `limit` of them.
    method RequeueStaleRunning(cutoff: int, limit: Option<nat>, recovery: Recovery) returns (report: StaleResult)
      requires Valid()
      modifies this`rows
      ensures Valid() && rows.Keys == old(rows).Keys
      ensures var swept := Swept(old(rows), ids, cutoff, limit);
              && report == Report(old(rows), swept)
              && forall id :: id in rows ==>
                   rows[id] == if id in swept then recovery.Recovered(old(rows)[id]) else old(rows)[id]
    {
      ghost var before := rows;
      SweptMeans(rows, ids, cutoff, limit);
      var swept := Swept(rows, ids, cutoff, limit);
      report := StaleResult([], [], []);
      assert SweptSoFar(before, rows, swept, 0, recovery, report);
      hide Swept, SweptSoFar, Report, ReportOne, SweepOne;
      for i := 0 to |swept|
        invariant SweptSoFar(before, rows, swept, i, recovery, report)
      {
        SweepStep(before, rows, swept, i, recovery, report);
        report := ReportOne(report, swept[i], rows[swept[i]].core);
        rows := rows[swept[i] := SweepOne(rows[swept[i]], recovery)];
      }
      SweptAll(before, rows, swept, recovery, report);
    }
  }

  lemma SweptAll(before: Rows, rows: Rows, swept: seq<int>, recovery: Recovery, report: StaleResult)
    requires SweptSoFar(before, rows, swept, |swept|, recovery, report)
    ensures rows.Keys == before.Keys && report == Report(before, swept)
    ensures forall id :: id in rows ==>
              rows[id] == if id in swept then recovery.Recovered(before[id]) else before[id]
  {
    assert swept[..|swept|] == swept;
  }

  // ---------------------------------------------------------------- the service

  class Service {
    const backend: Backend

    constructor (backend: Backend)
      ensures this.backend == backend
    {
      this.backend := backend;
    }

    // The settle paths of `execute_record`: complete, fail for good, or fail with a retry after a delay.
    method SettleExecution(id: int, snapshot: Record, failure: Option<bool>, now: int, retryDelay: int)
      returns (outcome: Attempts.Outcome)
      modifies backend`rows
      ensures var settle := if failure.None? then Attempts.Succeed
                            else Attempts.FailFor(failure.value, failure.value && retryDelay > 0);
              var retryAt := if failure == Some(true) && retryDelay > 0 then Some(now + retryDelay) else None;
              var updated := OnRow(old(backend.rows), id,
                                   (x: Row) => Requeued(x, Attempts.ServiceSettle(x.core, snapshot, settle, None), now, retryAt));
              && backend.rows == (if updated.Some? then old(backend.rows)[id := updated.value] else old(backend.rows))
              && outcome == if updated.Some? then Attempts.Settled else Attempts.ClaimLost
      ensures outcome == Attempts.Settled <==>
                id in old(backend.rows) && old(backend.rows)[id].core.status == Attempts.Running
                && old(backend.rows)[id].core.retryCount == snapshot.retryCount
      ensures outcome == Attempts.Settled ==>
                var before, after := old(backend.rows)[id].core, backend.rows[id].core;
                if failure.None? then after == before.(status := Attempts.Completed)
                else Attempts.AfterFailure(before, after, failure.value, retryDelay > 0)
    {
      var updated: Option<Row>;
      if failure.None? {
        updated := backend.CompleteTask(id, snapshot.retryCount);
      } else if !failure.value {
        updated := backend.FailTask(id, false, None, now, snapshot.retryCount);
      } else {
        var retryAt := if retryDelay > 0 then Some(now + retryDelay) else None;
        updated := backend.FailTask(id, true, retryAt, now, snapshot.retryCount);
      }
      outcome := if updated.None? then Attempts.ClaimLost else Attempts.Settled;
    }

    // `interrupt_task`: at the limit the interruption is routed through the retry policy.
    method InterruptTask(id: int, snapshot: Record, worker: int, maxInterruptions: Option<nat>, now: int)
      returns (updated: Option<Row>)
      modifies backend`rows
      ensures updated.Some? <==>
                id in old(backend.rows)
                && Attempts.ServiceSettle(old(backend.rows)[id].core, snapshot, Attempts.Interrupt(worker), maxInterruptions).Some?
      ensures updated.Some? ==>
                Some(updated.value.core)
                == Attempts.ServiceSettle(old(backend.rows)[id].core, snapshot, Attempts.Interrupt(worker), maxInterruptions)
      ensures backend.rows == (if updated.Some? then old(backend.rows)[id := updated.value] else old(backend.rows))
    {
      if maxInterruptions.Some? && snapshot.interruptions >= maxInterruptions.value {
        updated := backend.FailTask(id, true, None, now, snapshot.retryCount);
      } else {
        updated := backend.InterruptTask(id, snapshot.retryCount, worker, now);
      }
    }
  }
}
