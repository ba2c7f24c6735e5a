/** How soon a committed entry is released, under any interleaving that does not cancel the worker. */
module HistoryLiveness {
  import opened Wrappers
  import opened HistoryProtocol
  import opened HistoryInvariant
  import opened HistoryTheorems

  // A step of the worker itself.
  predicate Works(a: Action) {
    a.DoWorkerResume? || a.DoDrain? || (a.DoReleaseEnds? && !a.outcome.WasCancelled?)
  }

  predicate CancelsWorker(a: Action) {
    a.DoCancelWorker? || (a.DoReleaseEnds? && a.outcome.WasCancelled?)
  }

  predicate AtWork(s: State) {
    Alive(s.worker) && !s.worker.Cancelling?
  }

  // Entry `q` is durable and its release has not ended.
  ghost predicate Due(s: State, q: nat) {
    1 <= q <= |s.logs.durable| && q !in s.releasedFlags
  }

  // Releases to begin up to `q` count twice, the one under way once.
  function Distance(s: State, q: nat): nat {
    2 * (if q > |s.logs.started| then q - |s.logs.started| else 0) + |Active(s)|
  }

  // How far the worker is from its next release.
  function Stage(s: State): nat {
    match s.worker
    case Draining(t) => if s.committed != [] && s.committed[0].sequence > t.boundary then 4 else 2
    case Starting => 3
    case Woken => 3
    case _ => 0
  }

  function StepsLeft(s: State, q: nat): nat {
    5 * Distance(s, q) + Stage(s)
  }

  // The worker is not asleep while an entry is due, and the entry is under way or committed.
  lemma DueIsAhead(s: State, q: nat)
    requires Inv(s) && AtWork(s) && Due(s, q)
    ensures !s.worker.Parked?
    ensures s.worker.Delivering? || (s.committed != [] && q > |s.logs.started|)
    ensures s.committed != [] ==> s.committed[0].sequence == |s.logs.started| + 1 <= s.sequence
    ensures q <= |s.logs.started| ==> q == |s.logs.started|
  {
  }

  lemma WorkLowers(s: State, a: Action, q: nat)
    requires Inv(s) && AtWork(s) && Due(s, q) && Enabled(s, a) && Works(a)
    ensures AtWork(Apply(s, a))
    ensures q in Apply(s, a).releasedFlags || (Due(Apply(s, a), q) && StepsLeft(Apply(s, a), q) < StepsLeft(s, q))
  {
    DueIsAhead(s, q);
    hide Inv;
  }

  // The worker where it was, but for a boundary that a re-entrant flush may have widened.
  predicate SameWorker(w: Worker, v: Worker) {
    match w
    case Draining(t) => v.Draining? && v.token.boundary >= t.boundary
    case Delivering(_, _) => v.Delivering?
    case _ => v == w
  }

  // Nothing about releases changed, except that more entries may have been committed behind.
  ghost predicate ReleasesUntouched(s: State, t: State) {
    && t.logs.started == s.logs.started && t.releasedFlags == s.releasedFlags
    && s.committed <= t.committed && |s.logs.durable| <= |t.logs.durable|
    && SameWorker(s.worker, t.worker)
  }

  lemma PersistEndsUntouched(s: State, c: nat, error: Option<Error>)
    requires c < |s.clients| && AtWork(s)
    ensures ReleasesUntouched(s, FinishPersist(s, c, error))
  {
  }

  lemma OthersLeaveReleases(s: State, a: Action)
    requires Enabled(s, a) && AtWork(s) && !s.worker.Parked? && !Works(a) && !CancelsWorker(a)
    ensures ReleasesUntouched(s, Apply(s, a))
  {
    hide WaitScan, CollectBatch, SequencesUpTo, Flags, CombineErrors, Outstanding, WakeClients, SameCalls, FinishPersist;
    match a
    case DoLoopHead(c) =>
      PersistEndsUntouched(s, c, None);
      PersistEndsUntouched(s, c, s.fatal);
    case DoWriteRaised(c, configurationError) =>
      var fatal := if configurationError then Some(FatalWrite(s.writes)) else s.fatal;
      PersistEndsUntouched(s.(writes := s.writes + 1, fatal := fatal), c,
                           if configurationError then fatal
                           else if s.cfg.strict then Some(WriteFailed(s.writes)) else None);
    case _ =>
  }

  lemma UntouchedDoesNotRaise(s: State, t: State, q: nat)
    requires AtWork(s) && Due(s, q) && (s.worker.Delivering? || s.committed != []) && ReleasesUntouched(s, t)
    ensures AtWork(t) && Due(t, q) && StepsLeft(t, q) <= StepsLeft(s, q)
  {
  }

  lemma OthersDoNotRaise(s: State, a: Action, q: nat)
    requires Inv(s) && AtWork(s) && Due(s, q) && Enabled(s, a) && !Works(a) && !CancelsWorker(a)
    ensures AtWork(Apply(s, a)) && Due(Apply(s, a), q)
    ensures StepsLeft(Apply(s, a), q) <= StepsLeft(s, q)
  {
    DueIsAhead(s, q);
    hide Inv, Apply, Enabled, Works, CancelsWorker, ReleasesUntouched, StepsLeft, AtWork, Due;
    OthersLeaveReleases(s, a);
    UntouchedDoesNotRaise(s, Apply(s, a), q);
  }

  function WorkDone(actions: seq<Action>): nat {
    if actions == [] then 0
    else WorkDone(actions[..|actions| - 1]) + if Works(actions[|actions| - 1]) then 1 else 0
  }

  // In a reachable state the measure is bounded by the capacity of the buffer.
  lemma StepsLeftBounded(s: State, q: nat)
    requires Inv(s) && 1 <= q <= |s.logs.durable|
    ensures StepsLeft(s, q) <= 10 * s.cfg.maxPending + 4
  {
  }

  // `q` is released, or `work` steps were paid for out of `budget`.
  ghost predicate Paid(s: State, q: nat, work: nat, budget: nat) {
    q in s.releasedFlags || (AtWork(s) && Due(s, q) && work + StepsLeft(s, q) <= budget)
  }

  lemma StepIsPaid(s: State, a: Action, q: nat, work: nat, budget: nat)
    requires Inv(s) && Enabled(s, a) && !CancelsWorker(a) && Paid(s, q, work, budget)
    ensures Paid(Apply(s, a), q, work + if Works(a) then 1 else 0, budget)
  {
    hide Inv, Due, AtWork, StepsLeft, CancelsWorker, Works, Apply, Enabled;
    if q in s.releasedFlags {
      ReleasedStays(s, a, q);
    } else if Works(a) {
      WorkLowers(s, a, q);
    } else {
      OthersDoNotRaise(s, a, q);
    }
  }

  lemma WorkOfOneMore(actions: seq<Action>, m: nat, n: nat)
    requires m < n <= |actions|
    ensures WorkDone(actions[m..n]) == WorkDone(actions[m..n - 1]) + if Works(actions[n - 1]) then 1 else 0
  {
    assert actions[m..n][..n - 1 - m] == actions[m..n - 1];
  }

  lemma PaidAtStart(s: State, q: nat)
    requires Inv(s) && AtWork(s) && 1 <= q <= |s.logs.durable|
    ensures Paid(s, q, WorkDone([]), StepsLeft(s, q))
  {
  }

  lemma StepOfRun(cfg: Config, states: seq<State>, actions: seq<Action>, n: nat)
    requires IsRun(cfg, states, actions) && n < |actions|
    ensures Enabled(states[n], actions[n]) && states[n + 1] == Apply(states[n], actions[n])
  {
  }

  lemma {:induction false} WorkIsPaid(cfg: Config, states: seq<State>, actions: seq<Action>, m: nat, n: nat, q: nat)
    requires IsRun(cfg, states, actions) && m <= n < |states|
    requires 1 <= q <= |states[m].logs.durable| && AtWork(states[m])
    requires forall i :: m <= i < n ==> !CancelsWorker(actions[i])
    ensures Paid(states[n], q, WorkDone(actions[m..n]), StepsLeft(states[m], q))
  {
    assert |states| == |actions| + 1;
    if m == n {
      RunKeepsInv(cfg, states, actions, m);
      PaidAtStart(states[m], q);
      assert actions[m..n] == [];
    } else {
      WorkIsPaid(cfg, states, actions, m, n - 1, q);
      RunKeepsInv(cfg, states, actions, n - 1);
      StepOfRun(cfg, states, actions, n - 1);
      WorkOfOneMore(actions, m, n);
      hide *;
      StepIsPaid(states[n - 1], actions[n - 1], q, WorkDone(actions[m..n - 1]), StepsLeft(states[m], q));
    }
  }

  lemma ReleasedStays(s: State, a: Action, q: nat)
    requires Inv(s) && Enabled(s, a) && q in s.releasedFlags
    ensures q in Apply(s, a).releasedFlags
  {
    hide Inv, WaitScan, CollectBatch, SequencesUpTo, Flags, CombineErrors, Outstanding, WakeClients, RaiseBoundary;
  }

  /**
   A durable entry is released, and nobody is parked on it, before the worker has taken more than
   10 * max_pending + 4 steps, whatever producers, flushes and writes do meanwhile; and until then
   a step of the worker is always possible.
   */
  lemma ReleasedInTime(cfg: Config, states: seq<State>, actions: seq<Action>, m: nat, n: nat, q: nat)
    requires IsRun(cfg, states, actions) && m <= n < |states|
    requires 1 <= q <= |states[m].logs.durable| && AtWork(states[m])
    requires forall i :: m <= i < n ==> !CancelsWorker(actions[i])
    ensures WorkDone(actions[m..n]) > 10 * cfg.maxPending + 4 ==> q in states[n].releasedFlags
    ensures q in states[n].releasedFlags ==>
              forall c :: 0 <= c < |states[n].clients| && states[n].clients[c].phase.ParkedOn? ==>
                states[n].clients[c].phase.index < |states[n].clients[c].targets|
                && states[n].clients[c].targets[states[n].clients[c].phase.index] != q
    ensures q !in states[n].releasedFlags ==> exists a :: Works(a) && Enabled(states[n], a)
  {
    WorkIsPaid(cfg, states, actions, m, n, q);
    RunKeepsInv(cfg, states, actions, m);
    RunKeepsInv(cfg, states, actions, n);
    hide Inv, IsRun, StepsLeft, WorkDone, Works, Enabled, AtWork, Due;
    StepsLeftBounded(states[m], q);
    if q in states[n].releasedFlags { ParkedAreUnreleased(states[n], q); } else { CanWork(states[n], q); }
  }

  lemma ParkedAreUnreleased(s: State, q: nat)
    requires Inv(s) && q in s.releasedFlags
    ensures forall c :: 0 <= c < |s.clients| && s.clients[c].phase.ParkedOn? ==>
              s.clients[c].phase.index < |s.clients[c].targets| && s.clients[c].targets[s.clients[c].phase.index] != q
  {
    forall c | 0 <= c < |s.clients| && s.clients[c].phase.ParkedOn?
      ensures s.clients[c].phase.index < |s.clients[c].targets| && s.clients[c].targets[s.clients[c].phase.index] != q
    {
      assert ClientInv(s, s.clients[c]);
    }
  }

  lemma CanWork(s: State, q: nat)
    requires Inv(s) && AtWork(s) && Due(s, q)
    ensures exists a :: Works(a) && Enabled(s, a)
  {
    DueIsAhead(s, q);
    var a := if s.worker.Draining? then DoDrain
             else if s.worker.Delivering? then DoReleaseEnds(Delivered)
             else DoWorkerResume;
    assert Works(a) && Enabled(s, a);
  }
}
