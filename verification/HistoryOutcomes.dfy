/**
 What the buffer reports, over whole runs: callbacks that failed, writes that failed, entries that
 a call has made durable, and admissions that are refused.
 */
module HistoryOutcomes {
  import opened Wrappers
  import opened HistoryProtocol
  import opened HistoryInvariant
  import opened HistoryTheorems

  // ---------------------------------------------------------------- callbacks that failed

  // In this step the live callback of entry `q` raised or was cancelled.
  predicate CallbackFails(s: State, a: Action, q: nat) {
    && (a == DoReleaseEnds(Raised) || a == DoReleaseEnds(WasCancelled))
    && s.worker.Delivering? && s.worker.entry.sequence == q
  }

  function FailureOf(a: Action, q: nat): Error {
    if a == DoReleaseEnds(WasCancelled) then ReleaseCancelled(q) else ReleaseFailed(q)
  }

  lemma FinishEntryNotes(s: State, token: Token, entry: Entry, error: Option<Error>)
    ensures var t := FinishEntry(s, token, entry, error);
            t.errors == if error.Some? then s.errors[entry.sequence := error.value] else s.errors
  {
  }

  // A step notes the error of a callback that failed in it, and no other.
  lemma StepNotesFailure(s: State, a: Action, q: nat)
    requires Enabled(s, a)
    ensures CallbackFails(s, a, q) ==> q in Apply(s, a).errors && Apply(s, a).errors[q] == FailureOf(a, q)
    ensures !CallbackFails(s, a, q) ==>
              (q in Apply(s, a).errors <==> q in s.errors) && (q in s.errors ==> Apply(s, a).errors[q] == s.errors[q])
  {
    hide WaitScan, CollectBatch, SequencesUpTo, Flags, RaiseBoundary, CombineErrors, Outstanding, WakeClients, SameCalls;
  }

  // Entry `q` is called back once, so an entry that failed is not called back again.
  lemma FailsOnce(s: State, a: Action, q: nat)
    requires Inv(s) && Enabled(s, a) && CallbackFails(s, a, q)
    ensures q !in s.errors
  {
  }

  // The errors noted after `n` steps are those of the callbacks of entry `q` that failed in them.
  ghost predicate Told(states: seq<State>, actions: seq<Action>, n: nat, q: nat)
    requires n < |states| == |actions| + 1
  {
    && (q in states[n].errors <==> exists i :: 0 <= i < n && CallbackFails(states[i], actions[i], q))
    && forall i :: 0 <= i < n && CallbackFails(states[i], actions[i], q) ==>
         states[n].errors[q] == FailureOf(actions[i], q)
  }

  lemma ToldOneMore(states: seq<State>, actions: seq<Action>, n: nat, q: nat)
    requires n < |actions| == |states| - 1 && Told(states, actions, n, q)
    requires Inv(states[n]) && Enabled(states[n], actions[n]) && states[n + 1] == Apply(states[n], actions[n])
    ensures Told(states, actions, n + 1, q)
  {
    StepNotesFailure(states[n], actions[n], q);
    hide Apply, Enabled, FailureOf;
    if CallbackFails(states[n], actions[n], q) { FailsOnce(states[n], actions[n], q); }
    hide Inv, CallbackFails;
  }

  lemma {:induction false} RunTells(cfg: Config, states: seq<State>, actions: seq<Action>, n: nat, q: nat)
    requires IsRun(cfg, states, actions) && n < |states|
    ensures Told(states, actions, n, q)
  {
    if n > 0 {
      hide Inv, Apply, Enabled, Told;
      RunTells(cfg, states, actions, n - 1, q);
      RunKeepsInv(cfg, states, actions, n - 1);
      ToldOneMore(states, actions, n - 1, q);
    }
  }

  /**
   The errors of entries are those of their callbacks: entry `q` has one exactly when its callback
   raised or was cancelled earlier in the run, and the error tells which.
   */
  lemma ErrorsTellOutcomes(cfg: Config, states: seq<State>, actions: seq<Action>, n: nat, q: nat)
    requires IsRun(cfg, states, actions) && n < |states|
    ensures q in states[n].errors <==> exists i :: 0 <= i < n && CallbackFails(states[i], actions[i], q)
    ensures forall i :: 0 <= i < n && CallbackFails(states[i], actions[i], q) ==>
              states[n].errors[q] == FailureOf(actions[i], q)
  {
    RunTells(cfg, states, actions, n, q);
    hide IsRun, CallbackFails, FailureOf;
  }

  // The worker survives a callback that raises, and ends with one that is cancelled.
  lemma WorkerAfterCallback(s: State, outcome: Outcome)
    requires s.worker.Delivering?
    ensures ReleaseEnds(s, outcome).worker == if outcome == WasCancelled then Dead else Draining(s.worker.token)
    ensures ReleaseEnds(s, outcome).size == s.size - 1
  {
  }

  /** A callback that fails becomes the background error, unless one is stored already. */
  lemma FailureIsStored(cfg: Config, states: seq<State>, actions: seq<Action>, n: nat, q: nat)
    requires IsRun(cfg, states, actions) && n < |actions| && CallbackFails(states[n], actions[n], q)
    ensures states[n + 1].background
         == if states[n].background.Some? then states[n].background else Some(FailureOf(actions[n], q))
  {
  }

  /**
   A call that waits for its releases never returns normally when the callback of one of its targets
   raised or was cancelled before.
   */
  lemma FailureReachesFlush(cfg: Config, states: seq<State>, actions: seq<Action>, n: nat, c: nat, q: nat, i: nat)
    requires IsRun(cfg, states, actions) && n < |actions| && c < |states[n].clients| && i <= n
    requires states[n].clients[c].mode.Waits? && !states[n].clients[c].phase.Returned?
    requires q in states[n].clients[c].targets && CallbackFails(states[i], actions[i], q)
    ensures c < |states[n + 1].clients| && states[n + 1].clients[c].phase != Returned(None)
  {
    RunKeepsInv(cfg, states, actions, n);
    StepKeepsCalls(states[n], actions[n], c);
    ErrorsTellOutcomes(cfg, states, actions, n + 1, q);
    assert ClientInv(states[n], states[n].clients[c]);
    if states[n + 1].clients[c].phase == Returned(None) {
      FlushReturnContract(cfg, states, actions, n, c, q);
    }
  }

  // ---------------------------------------------------------------- which error a scan returns

  // Target `k` is committed and its release failed, or was cancelled.
  predicate Failed(s: State, targets: seq<nat>, k: nat) {
    k < |targets| && targets[k] in s.committedFlags && targets[k] in s.errors
  }

  predicate Cancelled(s: State, targets: seq<nat>, k: nat) {
    Failed(s, targets, k) && s.errors[targets[k]].ReleaseCancelled?
  }

  /** The error a wait returns is the last cancellation among its remaining targets, if there is one, */
  lemma {:induction false} LastCancellationWins(s: State, targets: seq<nat>, i: nat, error: Option<Error>, k: nat)
    requires i <= k && Cancelled(s, targets, k) && forall j: nat :: j > k ==> !Cancelled(s, targets, j)
    requires WaitScan(s, targets, i, error).Done?
    ensures WaitScan(s, targets, i, error) == Done(Some(s.errors[targets[k]]))
    decreases k - i
  {
    var next := if targets[i] in s.committedFlags then CombineErrors(error, s.errors, targets[i]) else error;
    if i == k {
      FirstErrorStays(s, targets, i + 1, next);
    } else {
      LastCancellationWins(s, targets, i + 1, next, k);
    }
  }

  /** else the error it came with, */
  lemma {:induction false} FirstErrorStays(s: State, targets: seq<nat>, i: nat, error: Option<Error>)
    requires i <= |targets| && WaitScan(s, targets, i, error).Done?
    requires error.Some? || forall j: nat :: j >= i ==> !Failed(s, targets, j)
    requires forall j: nat :: j >= i ==> !Cancelled(s, targets, j)
    ensures WaitScan(s, targets, i, error) == Done(error)
    decreases |targets| - i
  {
    if i < |targets| {
      assert !Cancelled(s, targets, i) && (error.Some? || !Failed(s, targets, i));
      FirstErrorStays(s, targets, i + 1, error);
    }
  }

  /** else the error of the first of them that failed. */
  lemma {:induction false} FirstFailureReported(s: State, targets: seq<nat>, i: nat, k: nat)
    requires i <= k && Failed(s, targets, k) && forall j: nat :: i <= j < k ==> !Failed(s, targets, j)
    requires forall j: nat :: j >= i ==> !Cancelled(s, targets, j)
    requires WaitScan(s, targets, i, None).Done?
    ensures WaitScan(s, targets, i, None) == Done(Some(s.errors[targets[k]]))
    decreases k - i
  {
    if i == k {
      FirstErrorStays(s, targets, i + 1, Some(s.errors[targets[k]]));
    } else {
      assert !Failed(s, targets, i);
      FirstFailureReported(s, targets, i + 1, k);
    }
  }

  // ---------------------------------------------------------------- writes

  // Call `c` has left its persist loop.
  predicate LeftPersist(client: Client) {
    client.phase.Waiting? || client.phase.ParkedOn? || client.phase.Returned?
  }

  // A write of call `c` raised, or the call was cancelled.
  predicate Disturbs(a: Action, c: nat) {
    a == DoWriteRaised(c, true) || a == DoWriteRaised(c, false) || a == DoCancelClient(c)
  }

  // Whoever left the persist loop has its boundary durable, or met the fatal error.
  ghost predicate Persisted(s: State, c: nat) {
    c < |s.clients| && LeftPersist(s.clients[c]) ==> s.clients[c].boundary <= |s.logs.durable| || s.fatal.Some?
  }

  lemma HeadBeyondBoundary(s: State, c: nat)
    requires Inv(s) && c < |s.clients| && (s.pending == [] || s.pending[0].sequence > s.clients[c].boundary)
    ensures s.clients[c].boundary <= |s.logs.durable|
  {
    assert ClientInv(s, s.clients[c]);
    if s.pending != [] { assert s.pending[0] == s.logs.admitted[|s.logs.durable|]; }
  }

  lemma FinishKeepsLogs(s: State, c: nat, error: Option<Error>)
    requires c < |s.clients|
    ensures FinishPersist(s, c, error).fatal == s.fatal && FinishPersist(s, c, error).lifecycle == s.lifecycle
  {
  }

  lemma StepKeepsPersisted(s: State, a: Action, c: nat)
    requires Inv(s) && Persisted(s, c) && Enabled(s, a) && !Disturbs(a, c)
    ensures Persisted(Apply(s, a), c)
  {
    StepGrowsLogs(s, a);
    if s.fatal.Some? {
      FatalStays(s, a);
    } else {
      match a
      case DoLoopHead(k) =>
        FinishKeepsLogs(s, k, None);
        if s.pending == [] || s.pending[0].sequence > s.clients[k].boundary { HeadBeyondBoundary(s, k); }
        hide Inv, CollectBatch, FinishPersist;
      case DoWriteRaised(k, _) => hide Inv, FinishPersist;
      case _ =>
        hide Inv;
        OthersKeepPersisted(s, a, c);
    }
  }

  lemma OthersKeepPersisted(s: State, a: Action, c: nat)
    requires Persisted(s, c) && Enabled(s, a) && !Disturbs(a, c) && !a.DoLoopHead? && !a.DoWriteRaised?
    requires |s.logs.durable| <= |Apply(s, a).logs.durable| && s.fatal.None?
    ensures Persisted(Apply(s, a), c)
  {
    hide WaitScan, CollectBatch, SequencesUpTo, Flags, RaiseBoundary, CombineErrors, Outstanding;
  }

  /**
   In both modes: a call none of whose writes raised, and that was not cancelled, leaves its persist
   loop only with every entry up to its boundary durable, unless the buffer met a fatal error.
   */
  lemma {:induction false} QuietCallPersists(cfg: Config, states: seq<State>, actions: seq<Action>, n: nat, c: nat)
    requires IsRun(cfg, states, actions) && n < |states|
    requires forall i :: 0 <= i < n ==> !Disturbs(actions[i], c)
    ensures Persisted(states[n], c)
  {
    if n > 0 {
      QuietCallPersists(cfg, states, actions, n - 1, c);
      RunKeepsInv(cfg, states, actions, n - 1);
      hide Inv, Persisted, Apply, Enabled;
      StepKeepsPersisted(states[n - 1], actions[n - 1], c);
    }
  }

  /** What a write that raised leaves: fatal on a configuration error, raised in strict mode, else retained quietly. */
  lemma WriteErrorSurfaces(s: State, c: nat, configurationError: bool)
    requires Enabled(s, DoWriteRaised(c, configurationError)) && s.clients[c].mode.Waits?
    ensures var t := WriteRaised(s, c, configurationError);
            && t.pending == s.pending && t.committed == s.committed && t.logs == s.logs && t.lock == None
            && t.fatal == (if configurationError then Some(FatalWrite(s.writes)) else s.fatal)
            && t.clients[c].phase == Waiting(0, if configurationError then Some(FatalWrite(s.writes))
                                                else if s.cfg.strict then Some(WriteFailed(s.writes)) else None)
  {
  }

  // ---------------------------------------------------------------- refused admissions

  /** An entry is admitted exactly when no error waits, the buffer accepts, and it has a free slot. */
  lemma AdmissionNeeds(s: State, record: int, hasRelease: bool)
    ensures Enabled(s, DoAdmit(record, hasRelease))
       <==> s.background.None? && s.fatal.None? && s.lifecycle == Accepting && s.size < s.cfg.maxPending
    ensures Refusal(s) == Some(BufferFull) && s.background.None? && s.fatal.None? ==>
              s.lifecycle == Accepting && s.size >= s.cfg.maxPending
    ensures s.background.Some? ==> Refusal(s) == s.background
    ensures s.background.None? && s.fatal.Some? ==> Refusal(s) == s.fatal
    ensures s.background.None? && s.fatal.None? && s.lifecycle != Accepting ==> Refusal(s) == Some(NotAccepting)
  {
  }

  // An admitted entry is the last of `pending`, with the record and the release it was given.
  lemma AdmitAppends(s: State, record: int, hasRelease: bool)
    requires Enabled(s, DoAdmit(record, hasRelease))
    ensures var t := Admit(s, record, hasRelease);
            && t.pending == s.pending + [Entry(s.sequence + 1, record, hasRelease)]
            && t.sequence == s.sequence + 1 && t.size == s.size + 1 && Alive(t.worker)
  {
  }

  lemma StaysClosed(s: State, a: Action)
    requires Enabled(s, a) && s.lifecycle != Accepting
    ensures Apply(s, a).lifecycle != Accepting && Apply(s, a).logs.admitted == s.logs.admitted
  {
    hide WaitScan, CollectBatch, SequencesUpTo, Flags, CombineErrors, Outstanding, WakeClients, SameCalls, FinishPersist;
    match a
    case DoLoopHead(c) =>
      FinishKeepsLogs(s, c, None);
      FinishKeepsLogs(s, c, s.fatal);
    case DoWriteRaised(c, configurationError) =>
      var fatal := if configurationError then Some(FatalWrite(s.writes)) else s.fatal;
      FinishKeepsLogs(s.(writes := s.writes + 1, fatal := fatal), c,
                      if configurationError then fatal else if s.cfg.strict then Some(WriteFailed(s.writes)) else None);
    case _ =>
  }

  /** Once the buffer is closing, nothing is admitted any more. */
  lemma {:induction false} ClosingAdmitsNothing(cfg: Config, states: seq<State>, actions: seq<Action>, m: nat, n: nat)
    requires IsRun(cfg, states, actions) && m <= n < |states| && states[m].lifecycle != Accepting
    ensures states[n].lifecycle != Accepting && states[n].logs.admitted == states[m].logs.admitted
    decreases n - m
  {
    if m < n {
      StaysClosed(states[m], actions[m]);
      hide Apply, Enabled;
      ClosingAdmitsNothing(cfg, states, actions, m + 1, n);
    }
  }

  /** A configuration error of a write is fatal: every later admission is refused and nothing more is written. */
  lemma ConfigurationErrorIsFatal(cfg: Config, states: seq<State>, actions: seq<Action>, m: nat, n: nat, c: nat)
    requires IsRun(cfg, states, actions) && m < n < |states| && actions[m] == DoWriteRaised(c, true)
    ensures states[n].fatal.Some? && Refusal(states[n]).Some?
    ensures states[n].logs.durable == states[m].logs.durable && states[n].logs.admitted == states[m].logs.admitted
  {
    FatalFreezesHistory(cfg, states, actions, m + 1, n);
  }

  // ---------------------------------------------------------------- re-entrant flushes

  // A re-entrant call that ended has widened the round it was made from, if that still runs.
  ghost predicate Widened(s: State, c: nat) {
    c < |s.clients| && s.clients[c].mode.Reentrant? && s.clients[c].phase.Returned?
    && s.clients[c].phase.error != Some(CallerCancelled) ==>
      && (s.worker.Draining? && s.worker.token.id == s.clients[c].mode.tokenId ==>
            s.worker.token.boundary >= s.clients[c].boundary)
      && (s.worker.Delivering? && s.worker.token.id == s.clients[c].mode.tokenId ==>
            s.worker.token.boundary >= s.clients[c].boundary)
  }

  lemma FinishWidens(s: State, k: nat, error: Option<Error>, c: nat)
    requires k < |s.clients| && Widened(s, c)
    ensures Widened(FinishPersist(s, k, error), c)
  {
  }

  lemma ResumeKeepsWidened(s: State, c: nat)
    requires Inv(s) && Widened(s, c) && Enabled(s, DoWorkerResume)
    ensures Widened(WorkerResume(s), c)
  {
    if c < |s.clients| { assert ClientInv(s, s.clients[c]); }
    hide Core;
  }

  lemma WorkerKeepsWidened(s: State, a: Action, c: nat)
    requires Widened(s, c) && Enabled(s, a) && (a.DoDrain? || a.DoReleaseEnds? || a.DoWorkerDies? || a.DoNotifyDeath?)
    ensures Widened(Apply(s, a), c)
  {
  }

  lemma OnlyWaitersWait(s: State, k: nat)
    requires Inv(s) && Enabled(s, DoWait(k))
    ensures s.clients[k].mode.Waits?
  {
    assert ClientInv(s, s.clients[k]);
  }

  lemma CallersKeepWidened(s: State, a: Action, c: nat)
    requires Widened(s, c) && Enabled(s, a)
    requires !a.DoLoopHead? && !a.DoWriteRaised? && !a.DoWorkerResume?
    requires !a.DoDrain? && !a.DoReleaseEnds? && !a.DoWorkerDies? && !a.DoNotifyDeath?
    requires a.DoWait? ==> s.clients[a.c].mode.Waits?
    ensures Widened(Apply(s, a), c)
  {
    hide WaitScan, CollectBatch, SequencesUpTo, Flags, RaiseBoundary, CombineErrors, Outstanding, FinishPersist;
  }

  lemma LoopHeadKeepsWidened(s: State, k: nat, c: nat)
    requires Widened(s, c) && Enabled(s, DoLoopHead(k))
    ensures Widened(LoopHead(s, k), c)
  {
    FinishWidens(s, k, None, c);
    FinishWidens(s, k, s.fatal, c);
    hide FinishPersist, CollectBatch;
  }

  lemma SameForWidened(s: State, t: State, c: nat)
    requires Widened(s, c) && t.clients == s.clients && t.worker == s.worker
    ensures Widened(t, c)
  {
  }

  lemma WriteRaisedKeepsWidened(s: State, k: nat, configurationError: bool, c: nat)
    requires Widened(s, c) && k < |s.clients|
    ensures Widened(WriteRaised(s, k, configurationError), c)
  {
    hide FinishPersist, Widened, SameCalls;
    if configurationError {
      var t := s.(writes := s.writes + 1, fatal := Some(FatalWrite(s.writes)));
      SameForWidened(s, t, c);
      FinishWidens(t, k, Some(FatalWrite(s.writes)), c);
    } else {
      var t := s.(writes := s.writes + 1, fatal := s.fatal);
      SameForWidened(s, t, c);
      FinishWidens(t, k, if s.cfg.strict then Some(WriteFailed(s.writes)) else None, c);
    }
  }

  lemma StepKeepsWidened(s: State, a: Action, c: nat)
    requires Inv(s) && Widened(s, c) && Enabled(s, a)
    ensures Widened(Apply(s, a), c)
  {
    hide Inv, Widened, LoopHead, WriteRaised, WorkerResume;
    match a
    case DoLoopHead(k) => LoopHeadKeepsWidened(s, k, c);
    case DoWriteRaised(k, configurationError) => WriteRaisedKeepsWidened(s, k, configurationError, c);
    case DoWorkerResume => ResumeKeepsWidened(s, c);
    case DoWait(k) =>
      OnlyWaitersWait(s, k);
      CallersKeepWidened(s, a, c);
    case _ =>
      hide Apply, Enabled;
      if a.DoDrain? || a.DoReleaseEnds? || a.DoWorkerDies? || a.DoNotifyDeath? {
        WorkerKeepsWidened(s, a, c);
      } else {
        CallersKeepWidened(s, a, c);
      }
  }

  /**
   A flush made from inside a release callback does not wait; instead the round it was made from goes
   on at least to its boundary.
   */
  lemma {:induction false} ReentrantFlushWidens(cfg: Config, states: seq<State>, actions: seq<Action>, n: nat, c: nat)
    requires IsRun(cfg, states, actions) && n < |states|
    ensures Widened(states[n], c)
  {
    if n > 0 {
      ReentrantFlushWidens(cfg, states, actions, n - 1, c);
      RunKeepsInv(cfg, states, actions, n - 1);
      hide Inv, Widened, Apply, Enabled;
      StepKeepsWidened(states[n - 1], actions[n - 1], c);
    }
  }
}
