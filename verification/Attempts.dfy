/**
 Fenced execution attempts. One queue record is raced for by workers, stale recovery, shutdown
 interruption and cancellation; `retry_count` is the fence. Records handed to workers are
 snapshots, as the backend contract's "generation the caller believes it owns" has it.
 */
module Attempts {
  import opened Wrappers

  datatype Status = Pending | Scheduled | Running | Completed | Failed | Cancelled | Expired

  datatype Record = Record(
    status: Status,
    retryCount: nat,
    interruptions: nat,
    maxRetries: nat,
    worker: Option<int>,
    requeueOnStale: bool)
  {
    predicate Terminal() {
      status.Completed? || status.Failed? || status.Cancelled? || status.Expired?
    }

    predicate Claimable() {
      status.Pending? || status.Scheduled?
    }

    // `attempts_consumed`: interruptions raise the fence but spend no retry.
    function Consumed(): int {
      retryCount - interruptions
    }

    // The fence of every settling write: still running, still this generation.
    predicate OwnedBy(generation: nat) {
      status.Running? && retryCount == generation
    }
  }

  // ---------------------------------------------------------------- the backend's step contract

  // `claim_task` on a record that is due and not overdue.
  function Claim(r: Record): Option<Record> {
    if r.Claimable() then Some(r.(status := Running)) else None
  }

  function AssignWorker(r: Record, worker: int, expected: nat): Option<Record> {
    if r.OwnedBy(expected) then Some(r.(worker := Some(worker))) else None
  }

  function CompleteTask(r: Record, expected: nat): Option<Record> {
    if r.OwnedBy(expected) then Some(r.(status := Completed)) else None
  }

  // Back to the queue under the next generation; a later due time makes it scheduled.
  function NextGeneration(r: Record, delayed: bool): Record {
    r.(status := if delayed then Scheduled else Pending, retryCount := r.retryCount + 1)
  }

  function FailTask(r: Record, retry: bool, delayed: bool, expected: nat): Option<Record> {
    if !r.OwnedBy(expected) then None
    else if retry && r.Consumed() < r.maxRetries then Some(NextGeneration(r, delayed))
    else Some(r.(status := Failed))
  }

  function InterruptTask(r: Record, expected: nat, worker: int): Option<Record> {
    if r.OwnedBy(expected) && r.worker == Some(worker) then
      Some(NextGeneration(r, false).(worker := None, interruptions := r.interruptions + 1))
    else None
  }

  // `requeue_stale_running` on one record whose heartbeat is too old.
  function RequeueStale(r: Record, delayed: bool): Option<Record> {
    if !r.status.Running? then None
    else if r.requeueOnStale && r.Consumed() < r.maxRetries then Some(NextGeneration(r, delayed))
    else Some(r.(status := Failed))
  }

  // Cancellation carries no fence when a job cancels itself.
  function CancelTask(r: Record, includeRunning: bool): Option<Record> {
    if r.Claimable() || (includeRunning && r.status.Running?) then Some(r.(status := Cancelled)) else None
  }

  function ExpireOverdue(r: Record): Option<Record> {
    if r.Claimable() then Some(r.(status := Expired)) else None
  }

  // ---------------------------------------------------------------- the service as a client

  // What the service does with an attempt that ended, given the snapshot it claimed.
  datatype Settle =
    | Succeed
    | FailFor(retryable: bool, delayed: bool)
    | Interrupt(worker: int)

  // `interrupt_task` of the service routes an exhausted record through the retry policy.
  function ServiceSettle(r: Record, snapshot: Record, settle: Settle, maxInterruptions: Option<nat>): Option<Record> {
    match settle
    case Succeed => CompleteTask(r, snapshot.retryCount)
    case FailFor(retryable, delayed) => FailTask(r, retryable, delayed, snapshot.retryCount)
    case Interrupt(worker) =>
      if maxInterruptions.Some? && snapshot.interruptions >= maxInterruptions.value then
        FailTask(r, true, false, snapshot.retryCount)
      else InterruptTask(r, snapshot.retryCount, worker)
  }

  datatype Outcome = Unsettled | Settled | ClaimLost

  datatype Attempt = Attempt(snapshot: Record, outcome: Outcome)

  // `ended` logs the generation that each state-ending write ended; `claimed` those claimed.
  datatype State = State(
    record: Record,
    attempts: seq<Attempt>,
    claimed: seq<nat>,
    ended: seq<nat>,
    maxInterruptions: Option<nat>)

  function Init(maxRetries: nat, presetInterruptions: nat, requeueOnStale: bool, scheduled: bool,
                maxInterruptions: Option<nat>): State {
    State(Record(if scheduled then Scheduled else Pending, 0, presetInterruptions, maxRetries, None, requeueOnStale),
          [], [], [], maxInterruptions)
  }

  datatype Action =
    | DoClaim
    | DoAssign(attempt: nat, worker: int)
    | DoSettle(attempt: nat, settle: Settle)
    | DoRequeueStale(delayed: bool)
    | DoCancel(includeRunning: bool)
    | DoExpire

  // A write that ends the current generation, or changes nothing.
  function EndGeneration(s: State, updated: Option<Record>): State {
    match updated
    case Some(r) => s.(record := r, ended := s.ended + [s.record.retryCount])
    case None => s
  }

  function Apply(s: State, a: Action): State {
    match a
    case DoClaim =>
      (match Claim(s.record)
       case Some(r) => s.(record := r, attempts := s.attempts + [Attempt(r, Unsettled)],
                          claimed := s.claimed + [r.retryCount])
       case None => s)
    case DoAssign(i, worker) =>
      if i >= |s.attempts| then s
      else
        (match AssignWorker(s.record, worker, s.attempts[i].snapshot.retryCount)
         case Some(r) => s.(record := r)
         case None => s)
    case DoSettle(i, settle) =>
      if i >= |s.attempts| then s
      else
        var updated := ServiceSettle(s.record, s.attempts[i].snapshot, settle, s.maxInterruptions);
        EndGeneration(s, updated).(
          attempts := s.attempts[i := s.attempts[i].(outcome := if updated.Some? then Settled else ClaimLost)])
    case DoRequeueStale(delayed) => EndGeneration(s, RequeueStale(s.record, delayed))
    case DoCancel(includeRunning) => EndGeneration(s, CancelTask(s.record, includeRunning))
    case DoExpire => EndGeneration(s, ExpireOverdue(s.record))
  }

  // ---------------------------------------------------------------- the invariant

  ghost predicate Ascending(xs: seq<nat>) {
    forall i, j :: 0 <= i < j < |xs| ==> xs[i] < xs[j]
  }

  // Generations already claimed or ended lie below the current one, or are it once it is over.
  ghost predicate LogsInv(s: State) {
    && Ascending(s.claimed) && Ascending(s.ended)
    && (forall g :: g in s.claimed ==> g < s.record.retryCount || (g == s.record.retryCount && !s.record.Claimable()))
    && (forall g :: g in s.ended ==> g < s.record.retryCount || (g == s.record.retryCount && s.record.Terminal()))
  }

  // A snapshot of the current generation still tells the current interruption count.
  ghost predicate SnapshotInv(r: Record, snapshot: Record) {
    && snapshot.retryCount <= r.retryCount
    && (snapshot.retryCount == r.retryCount ==> snapshot.interruptions == r.interruptions && !r.Claimable())
  }

  function Max(a: nat, b: nat): nat {
    if a < b then b else a
  }

  ghost predicate BudgetInv(s: State, preset: nat) {
    && s.record.Consumed() <= s.record.maxRetries
    && (s.maxInterruptions.Some? ==> s.record.interruptions <= Max(preset, s.maxInterruptions.value))
  }

  ghost predicate Inv(s: State, preset: nat) {
    && LogsInv(s)
    && (forall i :: 0 <= i < |s.attempts| ==> SnapshotInv(s.record, s.attempts[i].snapshot))
    && BudgetInv(s, preset)
  }

  lemma AscendingSnoc(xs: seq<nat>, x: nat)
    requires Ascending(xs) && forall y :: y in xs ==> y < x
    ensures Ascending(xs + [x])
  {
    assert forall i :: 0 <= i < |xs| ==> xs[i] in xs;
  }

  // Each write is judged by what it does to the record.
  lemma EndGenerationInv(s: State, updated: Option<Record>, preset: nat)
    requires Inv(s, preset)
    requires updated.Some? ==>
               && !s.record.Terminal()
               && updated.value.maxRetries == s.record.maxRetries
               && (if updated.value.Terminal()
                   then updated.value.retryCount == s.record.retryCount
                        && updated.value.interruptions == s.record.interruptions
                   else updated.value.retryCount == s.record.retryCount + 1)
               && BudgetInv(s.(record := updated.value), preset)
    ensures Inv(EndGeneration(s, updated), preset)
  {
    if updated.Some? {
      AscendingSnoc(s.ended, s.record.retryCount);
    }
  }

  lemma SettleInv(s: State, i: nat, settle: Settle, preset: nat)
    requires Inv(s, preset) && i < |s.attempts|
    ensures Inv(Apply(s, DoSettle(i, settle)), preset)
  {
    var snapshot := s.attempts[i].snapshot;
    assert SnapshotInv(s.record, snapshot);
    var updated := ServiceSettle(s.record, snapshot, settle, s.maxInterruptions);
    EndGenerationInv(s, updated, preset);
  }

  lemma StepKeepsInv(s: State, a: Action, preset: nat)
    requires Inv(s, preset)
    ensures Inv(Apply(s, a), preset)
  {
    match a
    case DoClaim =>
      if Claim(s.record).Some? { AscendingSnoc(s.claimed, s.record.retryCount); }
    case DoAssign(_, _) =>
    case DoSettle(i, settle) => if i < |s.attempts| { SettleInv(s, i, settle, preset); }
    case DoRequeueStale(delayed) => EndGenerationInv(s, RequeueStale(s.record, delayed), preset);
    case DoCancel(includeRunning) => EndGenerationInv(s, CancelTask(s.record, includeRunning), preset);
    case DoExpire => EndGenerationInv(s, ExpireOverdue(s.record), preset);
  }

  // ---------------------------------------------------------------- runs

  function Run(s: State, actions: seq<Action>): State {
    if actions == [] then s else Apply(Run(s, actions[..|actions| - 1]), actions[|actions| - 1])
  }

  lemma {:induction false} RunKeepsInv(s: State, actions: seq<Action>, preset: nat)
    requires Inv(s, preset)
    ensures Inv(Run(s, actions), preset)
  {
    if actions != [] {
      RunKeepsInv(s, actions[..|actions| - 1], preset);
      StepKeepsInv(Run(s, actions[..|actions| - 1]), actions[|actions| - 1], preset);
    }
  }

  lemma {:induction false} RunKeepsLimits(s: State, actions: seq<Action>)
    ensures Run(s, actions).record.maxRetries == s.record.maxRetries
    ensures Run(s, actions).maxInterruptions == s.maxInterruptions
  {
    if actions != [] { RunKeepsLimits(s, actions[..|actions| - 1]); }
  }

  lemma {:induction false} AscendingAtLeast(xs: seq<nat>, i: nat)
    requires Ascending(xs) && i < |xs|
    ensures xs[i] >= i
  {
    if i > 0 { AscendingAtLeast(xs, i - 1); }
  }

  /**
   Every generation is claimed at most once and ended at most once, whatever the interleaving of
   completions, failures, interruptions, stale recovery, cancellation and expiry.
   */
  lemma EachGenerationOnce(maxRetries: nat, preset: nat, requeueOnStale: bool, scheduled: bool,
                           maxInterruptions: Option<nat>, actions: seq<Action>, i: nat, j: nat)
    requires i < j
    ensures var s := Run(Init(maxRetries, preset, requeueOnStale, scheduled, maxInterruptions), actions);
            && (j < |s.ended| ==> s.ended[i] != s.ended[j])
            && (j < |s.claimed| ==> s.claimed[i] != s.claimed[j])
  {
    RunKeepsInv(Init(maxRetries, preset, requeueOnStale, scheduled, maxInterruptions), actions, preset);
  }

  /**
   With an interruption limit, a record is claimed at most 1 + max_retries + max_interruptions
   times, unless its metadata already claimed more interruptions when it was enqueued.
   */
  lemma AttemptsAreBounded(maxRetries: nat, preset: nat, requeueOnStale: bool, scheduled: bool,
                           limit: nat, actions: seq<Action>)
    ensures var s := Run(Init(maxRetries, preset, requeueOnStale, scheduled, Some(limit)), actions);
            |s.claimed| <= 1 + maxRetries + Max(preset, limit)
  {
    var init := Init(maxRetries, preset, requeueOnStale, scheduled, Some(limit));
    RunKeepsInv(init, actions, preset);
    RunKeepsLimits(init, actions);
    var s := Run(init, actions);
    if s.claimed != [] {
      AscendingAtLeast(s.claimed, |s.claimed| - 1);
      assert s.claimed[|s.claimed| - 1] in s.claimed;
    }
  }

  // Once its generation has ended, a worker's settle changes nothing and is reported as lost.
  lemma SupersededSettleIsLost(maxRetries: nat, preset: nat, requeueOnStale: bool, scheduled: bool,
                               maxInterruptions: Option<nat>, actions: seq<Action>, i: nat, settle: Settle)
    requires var s := Run(Init(maxRetries, preset, requeueOnStale, scheduled, maxInterruptions), actions);
             i < |s.attempts| && s.attempts[i].snapshot.retryCount in s.ended
    ensures var s := Run(Init(maxRetries, preset, requeueOnStale, scheduled, maxInterruptions), actions);
            var t := Apply(s, DoSettle(i, settle));
            t.record == s.record && t.ended == s.ended && t.attempts[i].outcome == ClaimLost
  {
    RunKeepsInv(Init(maxRetries, preset, requeueOnStale, scheduled, maxInterruptions), actions, preset);
  }

  // A settle that succeeds is always the first to end the generation that was claimed.
  lemma SettleEndsOwnGeneration(maxRetries: nat, preset: nat, requeueOnStale: bool, scheduled: bool,
                                maxInterruptions: Option<nat>, actions: seq<Action>, i: nat, settle: Settle)
    requires var s := Run(Init(maxRetries, preset, requeueOnStale, scheduled, maxInterruptions), actions);
             i < |s.attempts| && Apply(s, DoSettle(i, settle)).attempts[i].outcome == Settled
    ensures var s := Run(Init(maxRetries, preset, requeueOnStale, scheduled, maxInterruptions), actions);
            var t := Apply(s, DoSettle(i, settle));
            && t.ended == s.ended + [s.attempts[i].snapshot.retryCount]
            && s.attempts[i].snapshot.retryCount !in s.ended
            && (t.record.Terminal() || t.record.retryCount == s.record.retryCount + 1)
  {
    RunKeepsInv(Init(maxRetries, preset, requeueOnStale, scheduled, maxInterruptions), actions, preset);
  }

  // A finished record stays as it is through any continuation, the unfenced cancellation included.
  lemma {:induction false} TerminalIsFinal(s: State, actions: seq<Action>)
    requires s.record.Terminal()
    ensures Run(s, actions).record == s.record
    ensures Run(s, actions).ended == s.ended && Run(s, actions).claimed == s.claimed
  {
    if actions != [] { TerminalIsFinal(s, actions[..|actions| - 1]); }
  }

  // ---------------------------------------------------------------- what each write leaves

  // Back in the queue under the next generation.
  predicate BackInQueue(r: Record, t: Record, status: Status) {
    && t.status == status && t.retryCount == r.retryCount + 1
    && t.maxRetries == r.maxRetries && t.requeueOnStale == r.requeueOnStale
  }

  // A failed attempt: retried within the budget, scheduled when delayed, and failed for good otherwise.
  predicate AfterFailure(r: Record, t: Record, retryable: bool, delayed: bool) {
    if retryable && r.retryCount - r.interruptions < r.maxRetries
    then BackInQueue(r, t, if delayed then Scheduled else Pending) && t.interruptions == r.interruptions && t.worker == r.worker
    else t == r.(status := Failed)
  }

  /**
   A settle is taken exactly when the record still runs the generation its worker claimed (and, for an
   interruption, under its worker); a success completes the record, a failure retries or fails it, and
   an interruption below the limit puts it back at once, one interruption up and without a worker.
   */
  lemma SettleMeans(s: State, i: nat, settle: Settle)
    requires i < |s.attempts|
    ensures var r, t, snapshot := s.record, Apply(s, DoSettle(i, settle)), s.attempts[i].snapshot;
            var exhausted := s.maxInterruptions.Some? && snapshot.interruptions >= s.maxInterruptions.value;
            && (t.attempts[i].outcome == Settled <==>
                  && r.status == Running && r.retryCount == snapshot.retryCount
                  && (settle.Interrupt? && !exhausted ==> r.worker == Some(settle.worker)))
            && (t.attempts[i].outcome != Settled ==> t.attempts[i].outcome == ClaimLost && t.record == r)
            && (t.attempts[i].outcome == Settled ==>
                  match settle
                  case Succeed => t.record == r.(status := Completed)
                  case FailFor(retryable, delayed) => AfterFailure(r, t.record, retryable, delayed)
                  case Interrupt(_) =>
                    if exhausted then AfterFailure(r, t.record, true, false)
                    else BackInQueue(r, t.record, Pending) && t.record.worker == None
                         && t.record.interruptions == r.interruptions + 1)
  {
  }

  /** The other steps: a claim runs the record, a stale one is retried or failed, and so on. */
  lemma StepsMean(s: State, delayed: bool, includeRunning: bool)
    ensures var r, waits := s.record, s.record.status == Pending || s.record.status == Scheduled;
            && Apply(s, DoClaim).record == (if waits then r.(status := Running) else r)
            && (waits ==> Apply(s, DoClaim).attempts == s.attempts + [Attempt(r.(status := Running), Unsettled)])
            && (r.status == Running ==>
                  AfterFailure(r, Apply(s, DoRequeueStale(delayed)).record, r.requeueOnStale, delayed))
            && (r.status != Running ==> Apply(s, DoRequeueStale(delayed)).record == r)
            && Apply(s, DoCancel(includeRunning)).record
            == (if waits || (includeRunning && r.status == Running) then r.(status := Cancelled) else r)
            && Apply(s, DoExpire).record == (if waits then r.(status := Expired) else r)
  {
  }

  // ---------------------------------------------------------------- the bound is exact

  // The record waits to be claimed, and every attempt so far was a claim.
  ghost predicate Waits(s: State, limit: nat) {
    && s.record.Claimable() && |s.attempts| == |s.claimed|
    && s.record.Consumed() <= s.record.maxRetries && s.maxInterruptions == Some(limit)
  }

  // How often the record can still be claimed: interruptions, retries and the last attempt.
  function AttemptsLeft(r: Record, limit: nat): int {
    1 + (r.maxRetries - r.Consumed()) + (Max(limit, r.interruptions) - r.interruptions)
  }

  // `t` is one attempt further than `s`.
  ghost predicate OneFurther(s: State, t: State, limit: nat) {
    && Waits(t, limit) && |t.claimed| == |s.claimed| + 1
    && AttemptsLeft(t.record, limit) == AttemptsLeft(s.record, limit) - 1
  }

  lemma InterruptedRound(s: State, limit: nat)
    requires Waits(s, limit) && s.record.interruptions < limit
    ensures var i := |s.attempts|;
            OneFurther(s, Apply(Apply(Apply(s, DoClaim), DoAssign(i, 0)), DoSettle(i, Interrupt(0))), limit)
  {
  }

  lemma RetriedRound(s: State, limit: nat)
    requires Waits(s, limit) && s.record.Consumed() < s.record.maxRetries
    ensures OneFurther(s, Apply(Apply(s, DoClaim), DoSettle(|s.attempts|, FailFor(true, false))), limit)
  {
  }

  // One more attempt, ended by an interruption below the limit or by a failure that is retried.
  lemma OneRound(init: State, actions: seq<Action>, limit: nat) returns (more: seq<Action>)
    requires Waits(Run(init, actions), limit) && AttemptsLeft(Run(init, actions).record, limit) > 1
    ensures OneFurther(Run(init, actions), Run(init, actions + more), limit)
  {
    hide Run, Apply, Waits, OneFurther;
    var s := Run(init, actions);
    var n := |s.attempts|;
    var one := actions + [DoClaim];
    RunSnoc(init, actions, DoClaim);
    if s.record.interruptions < limit {
      var two := one + [DoAssign(n, 0)];
      more := [DoClaim, DoAssign(n, 0), DoSettle(n, Interrupt(0))];
      assert actions + more == two + [DoSettle(n, Interrupt(0))];
      RunSnoc(init, one, DoAssign(n, 0));
      RunSnoc(init, two, DoSettle(n, Interrupt(0)));
      InterruptedRound(s, limit);
    } else {
      more := [DoClaim, DoSettle(n, FailFor(true, false))];
      assert actions + more == one + [DoSettle(n, FailFor(true, false))];
      RunSnoc(init, one, DoSettle(n, FailFor(true, false)));
      RetriedRound(s, limit);
    }
  }

  lemma LastClaim(init: State, actions: seq<Action>, limit: nat)
    requires Waits(Run(init, actions), limit)
    ensures AttemptsLeft(Run(init, actions).record, limit) >= 1
    ensures |Run(init, actions + [DoClaim]).claimed| == |Run(init, actions).claimed| + 1
  {
    RunSnoc(init, actions, DoClaim);
  }

  lemma {:induction false} Exhaust(init: State, actions: seq<Action>, limit: nat) returns (more: seq<Action>)
    requires Waits(Run(init, actions), limit)
    ensures |Run(init, actions + more).claimed|
         == |Run(init, actions).claimed| + AttemptsLeft(Run(init, actions).record, limit)
    decreases AttemptsLeft(Run(init, actions).record, limit)
  {
    hide Run, Waits, AttemptsLeft;
    LastClaim(init, actions, limit);
    if AttemptsLeft(Run(init, actions).record, limit) == 1 {
      more := [DoClaim];
    } else {
      var round := OneRound(init, actions, limit);
      var rest := Exhaust(init, actions + round, limit);
      more := round + rest;
      assert actions + round + rest == actions + more;
    }
  }

  /** For every record and limit, some run makes exactly the bounded number of attempts. */
  lemma BoundIsReached(maxRetries: nat, preset: nat, requeueOnStale: bool, scheduled: bool, limit: nat)
    returns (actions: seq<Action>)
    ensures |Run(Init(maxRetries, preset, requeueOnStale, scheduled, Some(limit)), actions).claimed|
         == 1 + maxRetries + Max(preset, limit)
  {
    var init := Init(maxRetries, preset, requeueOnStale, scheduled, Some(limit));
    actions := Exhaust(init, [], limit);
    assert [] + actions == actions;
  }

  // The attempts promised by the two settings alone suffice for every run of the record.
  ghost predicate AtMost(maxRetries: nat, preset: nat, requeueOnStale: bool, scheduled: bool, limit: nat, n: nat) {
    forall actions: seq<Action> ::
      |Run(Init(maxRetries, preset, requeueOnStale, scheduled, Some(limit)), actions).claimed| <= n
  }

  /**
   The bound 1 + max_retries + max_interruptions holds for every run of a record exactly when the
   interruptions its metadata claims at enqueue do not exceed the limit.
   */
  lemma PlainBoundHolds(maxRetries: nat, preset: nat, requeueOnStale: bool, scheduled: bool, limit: nat)
    ensures AtMost(maxRetries, preset, requeueOnStale, scheduled, limit, 1 + maxRetries + limit) <==> preset <= limit
  {
    forall actions: seq<Action>
      ensures |Run(Init(maxRetries, preset, requeueOnStale, scheduled, Some(limit)), actions).claimed|
           <= 1 + maxRetries + Max(preset, limit)
    {
      AttemptsAreBounded(maxRetries, preset, requeueOnStale, scheduled, limit, actions);
    }
    var actions := BoundIsReached(maxRetries, preset, requeueOnStale, scheduled, limit);
  }

  lemma RunSnoc(s: State, actions: seq<Action>, a: Action)
    ensures Run(s, actions + [a]) == Apply(Run(s, actions), a)
  {
  }
}
