/** What the invariant means for whole runs of the commit/release protocol. */
module HistoryTheorems {
  import opened Wrappers
  import opened HistoryProtocol
  import opened HistoryInvariant

  // A run: `states[0]` is initial and each action leads from one state to the next.
  ghost predicate IsRun(cfg: Config, states: seq<State>, actions: seq<Action>) {
    && cfg.Valid()
    && |states| == |actions| + 1
    && states[0] == Init(cfg)
    && (forall i :: 0 <= i < |actions| ==>
          Enabled(states[i], actions[i]) && states[i + 1] == Apply(states[i], actions[i]))
  }

  lemma {:induction false} RunKeepsInv(cfg: Config, states: seq<State>, actions: seq<Action>, n: nat)
    requires IsRun(cfg, states, actions) && n < |states|
    ensures Inv(states[n]) && states[n].cfg == cfg
  {
    hide Inv;
    if n == 0 {
      InitInv(cfg);
    } else {
      RunKeepsInv(cfg, states, actions, n - 1);
      StepKeepsInv(states[n - 1], actions[n - 1]);
      StepKeepsConfig(states[n - 1], actions[n - 1]);
    }
  }

  lemma StepKeepsConfig(s: State, a: Action)
    requires Enabled(s, a)
    ensures Apply(s, a).cfg == s.cfg
  {
  }

  /**
   Commit, then release. In every reachable state the started releases are a prefix of the
   durable entries, which are a prefix of the admitted ones, and admission numbers them 1, 2, 3...
   So no entry is written or released twice, out of order, or released before its write returned;
   and the size counter is exactly what is still owed, within its bound.
   */
  lemma CommitThenRelease(cfg: Config, states: seq<State>, actions: seq<Action>, n: nat)
    requires IsRun(cfg, states, actions) && n < |states|
    ensures var s := states[n];
            && s.logs.started <= s.logs.durable <= s.logs.admitted
            && (forall i :: 0 <= i < |s.logs.admitted| ==> s.logs.admitted[i].sequence == i + 1)
            && s.logs.durable + s.pending == s.logs.admitted
            && s.logs.started + s.committed == s.logs.durable
            && s.size == |s.pending| + |s.committed| + |Active(s)|
            && Finished(s) + s.size == s.sequence
            && s.size <= cfg.maxPending
            && (forall q :: q in s.releasedFlags <==> 1 <= q <= Finished(s))
  {
    RunKeepsInv(cfg, states, actions, n);
  }

  lemma StepGrowsLogs(s: State, a: Action)
    requires Enabled(s, a)
    ensures var t := Apply(s, a);
            s.logs.admitted <= t.logs.admitted && s.logs.durable <= t.logs.durable && s.logs.started <= t.logs.started
  {
    hide WaitScan, CollectBatch, SequencesUpTo, WakeClients, Flags, RaiseBoundary, CombineErrors, Refusal, Outstanding;
  }

  // The logs are histories: nothing recorded is ever revised.
  lemma {:induction false} LogsOnlyGrow(cfg: Config, states: seq<State>, actions: seq<Action>, m: nat, n: nat)
    requires IsRun(cfg, states, actions) && m <= n < |states|
    ensures states[m].logs.admitted <= states[n].logs.admitted
    ensures states[m].logs.durable <= states[n].logs.durable
    ensures states[m].logs.started <= states[n].logs.started
    decreases n - m
  {
    if m < n {
      StepGrowsLogs(states[m], actions[m]);
      LogsOnlyGrow(cfg, states, actions, m + 1, n);
    }
  }

  // Releases start one at a time: a step starts at most one, and it is the next durable entry.
  lemma ReleasesStartInOrder(cfg: Config, states: seq<State>, actions: seq<Action>, n: nat)
    requires IsRun(cfg, states, actions) && n < |actions|
    ensures var s, t := states[n], states[n + 1];
            || t.logs.started == s.logs.started
            || (|s.logs.started| < |s.logs.durable| && t.logs.started == s.logs.started + [s.logs.durable[|s.logs.started|]]
                && t.logs.started[|s.logs.started|].sequence == |s.logs.started| + 1)
  {
    RunKeepsInv(cfg, states, actions, n);
    NextStarted(states[n], actions[n]);
  }

  lemma NextStarted(s: State, a: Action)
    requires Inv(s) && Enabled(s, a)
    ensures var t := Apply(s, a);
            || t.logs.started == s.logs.started
            || (|s.logs.started| < |s.logs.durable| && t.logs.started == s.logs.started + [s.logs.durable[|s.logs.started|]]
                && t.logs.started[|s.logs.started|].sequence == |s.logs.started| + 1)
  {
    if a.DoDrain? && s.committed != [] {
      assert s.committed[0] == s.logs.durable[|s.logs.started|];
    }
  }

  // ---------------------------------------------------------------- what a flush promises

  // A flush that begins now has exactly the entries not yet finished as its targets.
  lemma FlushTargets(cfg: Config, states: seq<State>, actions: seq<Action>, n: nat)
    requires IsRun(cfg, states, actions) && n < |actions| && actions[n].DoStartFlush?
    ensures var s, t := states[n], states[n + 1];
            && |t.clients| == |s.clients| + 1
            && t.clients[|s.clients|].boundary == s.sequence
            && (forall q :: q in t.clients[|s.clients|].targets <==> Finished(s) < q <= s.sequence)
  {
    RunKeepsInv(cfg, states, actions, n);
    TargetsOfFlush(states[n], actions[n].mode);
  }

  lemma TargetsOfFlush(s: State, mode: Mode)
    requires Inv(s)
    ensures var t := StartFlush(s, mode);
            && |t.clients| == |s.clients| + 1
            && t.clients[|s.clients|].boundary == s.sequence
            && (forall q :: q in t.clients[|s.clients|].targets <==> Finished(s) < q <= s.sequence)
  {
    OutstandingIsTail(s);
    SequencesOfRun(Outstanding(s), Finished(s) + 1, s.sequence);
  }

  lemma StepKeepsCalls(s: State, a: Action, c: nat)
    requires Enabled(s, a) && c < |s.clients|
    ensures c < |Apply(s, a).clients|
    ensures var before, after := s.clients[c], Apply(s, a).clients[c];
            after.boundary == before.boundary && after.targets == before.targets && after.mode == before.mode
  {
  }

  // A call's boundary and targets are those of the moment it began.
  lemma {:induction false} CallsAreFixed(cfg: Config, states: seq<State>, actions: seq<Action>, m: nat, n: nat, c: nat)
    requires IsRun(cfg, states, actions) && m <= n < |states| && c < |states[m].clients|
    ensures c < |states[n].clients|
    ensures states[n].clients[c].boundary == states[m].clients[c].boundary
    ensures states[n].clients[c].targets == states[m].clients[c].targets
    ensures states[n].clients[c].mode == states[m].clients[c].mode
    decreases n - m
  {
    if m < n {
      StepKeepsCalls(states[m], actions[m], c);
      CallsAreFixed(cfg, states, actions, m + 1, n, c);
    }
  }

  /**
   A strict-mode flush (or barrier enqueue) that returned normally, and was neither re-entrant nor
   made by the timer, has left every entry up to its boundary durable and released; those that
   were unfinished when it began were released without error.
   */
  lemma StrictFlushContract(cfg: Config, states: seq<State>, actions: seq<Action>, n: nat, c: nat, q: nat)
    requires IsRun(cfg, states, actions) && n < |states| && cfg.strict
    requires c < |states[n].clients|
    requires states[n].clients[c].mode.Waits? && states[n].clients[c].phase == Returned(None)
    requires 1 <= q <= states[n].clients[c].boundary
    ensures q <= |states[n].logs.durable|
    ensures q in states[n].releasedFlags
    ensures q in states[n].clients[c].targets ==> q !in states[n].errors
  {
    RunKeepsInv(cfg, states, actions, n);
    var client := states[n].clients[c];
    assert ClientInv(states[n], client);
  }

  lemma OthersDoNotReturn(s: State, a: Action, c: nat)
    requires Enabled(s, a) && c < |s.clients| && !a.DoLoopHead? && !a.DoWriteRaised?
    requires s.clients[c].mode.Waits? && !s.clients[c].phase.Returned? && a != DoWait(c)
    ensures c < |Apply(s, a).clients| && Apply(s, a).clients[c].phase != Returned(None)
  {
    hide WaitScan, CollectBatch, SequencesUpTo, Refusal, Outstanding, Flags;
  }

  lemma OnlyWaitingReturns(s: State, a: Action, c: nat)
    requires Enabled(s, a) && c < |s.clients|
    requires s.clients[c].mode.Waits? && !s.clients[c].phase.Returned? && a != DoWait(c)
    ensures c < |Apply(s, a).clients| && Apply(s, a).clients[c].phase != Returned(None)
  {
    hide FinishPersist, CollectBatch;
    match a
    case DoLoopHead(_) =>
    case DoWriteRaised(_, _) =>
    case _ =>
      hide Apply, Enabled;
      OthersDoNotReturn(s, a, c);
  }

  // An ordinary caller's normal return is always the end of a scan of its targets.
  lemma WaitingCallerReturns(s: State, a: Action, c: nat)
    requires Inv(s) && Enabled(s, a) && c < |s.clients|
    requires s.clients[c].mode.Waits? && !s.clients[c].phase.Returned?
    requires Apply(s, a).clients[c].phase == Returned(None)
    ensures a == DoWait(c)
    ensures WaitScan(s, s.clients[c].targets, s.clients[c].phase.index, s.clients[c].phase.error) == Done(None)
    ensures Apply(s, a) == ReturnWith(s, c, None)
  {
    if a != DoWait(c) {
      OnlyWaitingReturns(s, a, c);
    }
  }

  /**
   In either mode, at the instant such a call returns normally, each entry up to its boundary is
   released or still retained in `pending`, and none of its targets was released with an error.
   */
  lemma FlushReturnContract(cfg: Config, states: seq<State>, actions: seq<Action>, n: nat, c: nat, q: nat)
    requires IsRun(cfg, states, actions) && n < |actions| && c < |states[n].clients|
    requires states[n].clients[c].mode.Waits? && !states[n].clients[c].phase.Returned?
    requires states[n + 1].clients[c].phase == Returned(None)
    requires 1 <= q <= states[n].clients[c].boundary
    ensures q <= |states[n].logs.admitted|
    ensures q in states[n + 1].releasedFlags || states[n].logs.admitted[q - 1] in states[n + 1].pending
    ensures q in states[n].clients[c].targets ==> q !in states[n + 1].errors
  {
    RunKeepsInv(cfg, states, actions, n);
    var s := states[n];
    WaitingCallerReturns(s, actions[n], c);
    var client := s.clients[c];
    assert ClientInv(s, client);
    WaitScanStops(s, client, client.phase.index, client.phase.error);
    if q !in s.releasedFlags {
      assert q in client.targets && q !in s.committedFlags;
      assert s.logs.admitted[q - 1] == s.pending[q - 1 - |s.logs.durable|];
    }
  }

  // ---------------------------------------------------------------- errors

  // After a fatal error nobody is writing.
  ghost predicate Frozen(s: State) {
    s.fatal.Some? ==> forall c :: 0 <= c < |s.clients| ==> !s.clients[c].phase.Writing?
  }

  lemma PersistEndsFrozen(s: State, c: nat, error: Option<Error>)
    requires c < |s.clients| && forall i :: 0 <= i < |s.clients| && i != c ==> !s.clients[i].phase.Writing?
    ensures Frozen(FinishPersist(s, c, error))
  {
  }

  lemma OnlyHolderWrites(s: State, c: nat)
    requires Inv(s) && c < |s.clients| && s.clients[c].HoldsLock()
    ensures forall i :: 0 <= i < |s.clients| && i != c ==> !s.clients[i].phase.Writing?
  {
  }

  lemma OthersKeepFrozen(s: State, a: Action)
    requires Frozen(s) && Enabled(s, a) && !a.DoLoopHead? && !a.DoWriteRaised?
    ensures Frozen(Apply(s, a))
  {
    hide WaitScan, CollectBatch, SequencesUpTo, Flags, RaiseBoundary, CombineErrors, Outstanding, SameCalls;
  }

  lemma StepKeepsFrozen(s: State, a: Action)
    requires Inv(s) && Frozen(s) && Enabled(s, a)
    ensures Frozen(Apply(s, a))
  {
    hide CollectBatch, Inv, FinishPersist, SameCalls;
    match a
    case DoLoopHead(c) =>
      OnlyHolderWrites(s, c);
      PersistEndsFrozen(s, c, None);
      PersistEndsFrozen(s, c, s.fatal);
    case DoWriteRaised(c, configurationError) =>
      OnlyHolderWrites(s, c);
      var fatal := if configurationError then Some(FatalWrite(s.writes)) else s.fatal;
      PersistEndsFrozen(s.(writes := s.writes + 1, fatal := fatal), c,
                        if configurationError then fatal else if s.cfg.strict then Some(WriteFailed(s.writes)) else None);
    case _ =>
      hide Apply, Enabled, Frozen;
      OthersKeepFrozen(s, a);
  }

  lemma FrozenStep(s: State, a: Action)
    requires Frozen(s) && Enabled(s, a) && s.fatal.Some?
    ensures var t := Apply(s, a); t.logs.admitted == s.logs.admitted && t.logs.durable == s.logs.durable
    ensures Apply(s, a).fatal.Some?
  {
    FatalStays(s, a);
    hide WaitScan, CollectBatch, SequencesUpTo, Flags, RaiseBoundary, CombineErrors, Outstanding, FinishPersist;
  }

  lemma FatalStays(s: State, a: Action)
    requires Enabled(s, a) && s.fatal.Some?
    ensures Apply(s, a).fatal.Some?
  {
    hide WaitScan, CollectBatch, SequencesUpTo, Flags, RaiseBoundary, CombineErrors, Outstanding, WakeClients;
  }

  lemma {:induction false} RunKeepsFrozen(cfg: Config, states: seq<State>, actions: seq<Action>, n: nat)
    requires IsRun(cfg, states, actions) && n < |states|
    ensures Frozen(states[n])
  {
    if n > 0 {
      RunKeepsFrozen(cfg, states, actions, n - 1);
      RunKeepsInv(cfg, states, actions, n - 1);
      hide Inv, Frozen;
      StepKeepsFrozen(states[n - 1], actions[n - 1]);
    }
  }

  /**
   A fatal write error is for good: from then on nothing is admitted and nothing is written,
   although entries committed before are still released.
   */
  lemma {:induction false} FatalFreezesHistory(cfg: Config, states: seq<State>, actions: seq<Action>, m: nat, n: nat)
    requires IsRun(cfg, states, actions) && m <= n < |states| && states[m].fatal.Some?
    ensures states[n].fatal.Some?
    ensures states[n].logs.admitted == states[m].logs.admitted
    ensures states[n].logs.durable == states[m].logs.durable
    decreases n - m
  {
    if m < n {
      RunKeepsFrozen(cfg, states, actions, m);
      hide Frozen;
      FrozenStep(states[m], actions[m]);
      FatalFreezesHistory(cfg, states, actions, m + 1, n);
    }
  }

  // The call `c` ends in this step by raising `error`.
  predicate Raises(s: State, t: State, c: nat, error: Option<Error>) {
    && c < |s.clients| && c < |t.clients|
    && !s.clients[c].mode.Background? && !s.clients[c].phase.Returned?
    && t.clients[c].phase == Returned(error)
  }

  ghost predicate SomeoneRaises(s: State, t: State, error: Option<Error>) {
    exists c :: Raises(s, t, c, error)
  }

  lemma ScanRaisesBackground(s: State, c: nat)
    requires Inv(s) && Enabled(s, DoWait(c))
    requires s.background.Some? && Apply(s, DoWait(c)).background != s.background
    ensures Apply(s, DoWait(c)).background.None? && Raises(s, Apply(s, DoWait(c)), c, s.background)
  {
    hide WaitScan, Core;
    assert ClientInv(s, s.clients[c]);
  }

  lemma PersistRaisesBackground(s: State, c: nat, error: Option<Error>)
    requires c < |s.clients| && !s.clients[c].phase.Returned?
    requires s.background.Some? && FinishPersist(s, c, error).background != s.background
    ensures FinishPersist(s, c, error).background.None? && Raises(s, FinishPersist(s, c, error), c, s.background)
  {
  }

  /**
   While the buffer accepts events, a stored background error is neither overwritten nor lost: it
   goes only by being raised, to a caller that asks for it or to one whose own flush met it.
   */
  lemma BackgroundErrorIsRaised(cfg: Config, states: seq<State>, actions: seq<Action>, n: nat)
    requires IsRun(cfg, states, actions) && n < |actions|
    requires states[n].lifecycle.Accepting? && states[n].background.Some? && !actions[n].DoBeginClose?
    requires states[n + 1].background != states[n].background
    ensures states[n + 1].background.None?
    ensures actions[n].DoTakeBackground? || SomeoneRaises(states[n], states[n + 1], states[n].background)
  {
    RunKeepsInv(cfg, states, actions, n);
    StepRaisesBackground(states[n], actions[n]);
  }

  lemma StepRaisesBackground(s: State, a: Action)
    requires Inv(s) && Enabled(s, a) && s.lifecycle.Accepting? && !a.DoBeginClose?
    requires s.background.Some? && Apply(s, a).background != s.background
    ensures Apply(s, a).background.None?
    ensures a.DoTakeBackground? || SomeoneRaises(s, Apply(s, a), s.background)
  {
    hide Inv, FinishPersist, WaitStep, CollectBatch, SequencesUpTo, Flags, CombineErrors, Outstanding, WakeClients;
    match a
    case DoLoopHead(c) =>
      PersistRaisesBackground(s, c, if s.pending == [] || s.pending[0].sequence > s.clients[c].boundary then None else s.fatal);
    case DoWriteRaised(c, configurationError) =>
      var fatal := if configurationError then Some(FatalWrite(s.writes)) else s.fatal;
      var t := s.(writes := s.writes + 1, fatal := fatal);
      PersistRaisesBackground(t, c, if configurationError then fatal
                                    else if s.cfg.strict then Some(WriteFailed(s.writes)) else None);
      assert Raises(s, Apply(s, a), c, s.background);
    case DoWait(c) => ScanRaisesBackground(s, c);
    case _ =>
  }

  // ---------------------------------------------------------------- no wake-up is lost

  // The worker, or the callback of a finished one, can take a step of its own.
  predicate WorkerCanMove(s: State) {
    s.deathNotices > 0 || (Alive(s.worker) && !s.worker.Parked?)
  }

  // Whenever the worker side is at rest, nobody is parked on it and nothing awaits release,
  // unless the worker is gone; then the next start of a worker finds the wake event set.
  lemma AtRestNobodyWaits(cfg: Config, states: seq<State>, actions: seq<Action>, n: nat)
    requires IsRun(cfg, states, actions) && n < |states| && !WorkerCanMove(states[n])
    ensures forall c :: 0 <= c < |states[n].clients| ==> !states[n].clients[c].phase.ParkedOn?
    ensures states[n].worker.Parked? ==> states[n].committed == []
    ensures var t := EnsureWorker(states[n]); t.committed != [] ==> t.worker.Starting? && t.wake
  {
    RunKeepsInv(cfg, states, actions, n);
    var s := states[n];
    forall c | 0 <= c < |s.clients| ensures !s.clients[c].phase.ParkedOn? {
      assert ClientInv(s, s.clients[c]);
    }
  }

  predicate WorkerAction(a: Action) {
    a.DoWorkerResume? || a.DoDrain? || a.DoReleaseEnds? || a.DoWorkerDies? || a.DoNotifyDeath?
  }

  function Turn(s: State): nat {
    match s.worker
    case Woken => 5
    case Draining(t) =>
      if s.committed == [] then (if s.wake then 4 else 2)
      else if s.committed[0].sequence > t.boundary then 4 else 2
    case Starting => if s.wake then 3 else 1
    case Cancelling => 2
    case _ => 0
  }

  // Entries still to be released count most, then pending callbacks, then where the worker stands.
  function ReleasesLeft(s: State): nat {
    2 * |s.committed| + |Active(s)|
  }

  function NoticesLeft(s: State): nat {
    s.deathNotices + if s.worker.Cancelling? then 1 else 0
  }

  ghost predicate Closer(s: State, t: State) {
    || ReleasesLeft(t) < ReleasesLeft(s)
    || (ReleasesLeft(t) == ReleasesLeft(s)
        && (NoticesLeft(t) < NoticesLeft(s) || (NoticesLeft(t) == NoticesLeft(s) && Turn(t) < Turn(s))))
  }

  // Left alone, the worker gets closer to rest with every step it takes, and some step of it is
  // always enabled until it rests. So a caller parked on it is always woken.
  lemma WorkerProgress(cfg: Config, states: seq<State>, actions: seq<Action>, n: nat, a: Action)
    requires IsRun(cfg, states, actions) && n < |states|
    requires WorkerAction(a) && Enabled(states[n], a)
    ensures Closer(states[n], Apply(states[n], a))
  {
    RunKeepsInv(cfg, states, actions, n);
    var s := states[n];
    if s.worker.Starting? && s.committed != [] {
      assert s.committed[0] == s.logs.admitted[|s.logs.started|];
    }
    if s.worker.Woken? && s.committed != [] {
      assert s.committed[0] == s.logs.admitted[|s.logs.started|];
    }
  }

  lemma WorkerNeverStuck(s: State)
    requires WorkerCanMove(s)
    ensures exists a :: WorkerAction(a) && Enabled(s, a)
  {
    var a := if s.deathNotices > 0 then DoNotifyDeath
             else if s.worker.Cancelling? then DoWorkerDies
             else if s.worker.Draining? then DoDrain
             else if s.worker.Delivering? then DoReleaseEnds(Delivered)
             else DoWorkerResume;
    assert WorkerAction(a) && Enabled(s, a);
  }

  lemma ExtendRun(cfg: Config, states: seq<State>, actions: seq<Action>, a: Action)
    requires IsRun(cfg, states, actions) && Enabled(states[|actions|], a)
    ensures IsRun(cfg, states + [Apply(states[|actions|], a)], actions + [a])
  {
    hide Apply, Enabled;
  }

  lemma WorkerMoves(cfg: Config, states: seq<State>, actions: seq<Action>) returns (a: Action, t: State)
    requires IsRun(cfg, states, actions) && WorkerCanMove(states[|actions|])
    ensures WorkerAction(a) && IsRun(cfg, states + [t], actions + [a]) && Closer(states[|actions|], t)
  {
    hide Apply, Enabled, WorkerCanMove, WorkerAction, Closer, Inv;
    var s := states[|actions|];
    WorkerNeverStuck(s);
    a :| WorkerAction(a) && Enabled(s, a);
    WorkerProgress(cfg, states, actions, |actions|, a);
    ExtendRun(cfg, states, actions, a);
    t := Apply(s, a);
  }

  /**
   From every reachable state the worker, left alone, comes to rest after finitely many steps, and
   no caller is parked on it then: every wake-up arrives.
   */
  lemma {:induction false} EveryWaiterIsWoken(cfg: Config, states: seq<State>, actions: seq<Action>)
    returns (longer: seq<State>, moves: seq<Action>)
    requires IsRun(cfg, states, actions)
    ensures IsRun(cfg, longer, actions + moves) && states <= longer && longer != []
    ensures forall i :: 0 <= i < |moves| ==> WorkerAction(moves[i])
    ensures var last := longer[|longer| - 1];
            !WorkerCanMove(last) && forall c :: 0 <= c < |last.clients| ==> !last.clients[c].phase.ParkedOn?
    decreases ReleasesLeft(states[|actions|]), NoticesLeft(states[|actions|]), Turn(states[|actions|])
  {
    hide Apply, Enabled, IsRun, WorkerCanMove, WorkerAction;
    assert |states| == |actions| + 1 by { RunLength(cfg, states, actions); }
    if WorkerCanMove(states[|actions|]) {
      var a, t := WorkerMoves(cfg, states, actions);
      var rest: seq<Action>;
      longer, rest := EveryWaiterIsWoken(cfg, states + [t], actions + [a]);
      moves := [a] + rest;
      assert actions + [a] + rest == actions + moves;
      assert states <= states + [t] <= longer;
    } else {
      AtRestNobodyWaits(cfg, states, actions, |actions|);
      longer, moves := states, [];
      assert actions + moves == actions;
    }
  }

  lemma RunLength(cfg: Config, states: seq<State>, actions: seq<Action>)
    requires IsRun(cfg, states, actions)
    ensures |states| == |actions| + 1
  {
  }
}
