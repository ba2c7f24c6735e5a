/**
 What single steps may change: the rounds of the release worker, cancelled calls, where background
 errors come from, and the workers whose end is still to be noticed.
 */
module HistorySteps {
  import opened Wrappers
  import opened HistoryProtocol
  import opened HistoryTheorems
  import opened HistoryOutcomes

  // ---------------------------------------------------------------- rounds

  function RoundOf(w: Worker): Option<Token> {
    match w
    case Draining(t) => Some(t)
    case Delivering(t, _) => Some(t)
    case _ => None
  }

  predicate BeginsRound(s: State, a: Action) {
    a.DoWorkerResume? && (s.worker.Woken? || s.wake)
  }

  // The boundary of a round moves only when a call made from inside it ends.
  predicate EndsReentrant(s: State, t: State, c: nat, token: Token) {
    && c < |s.clients| == |t.clients| && s.clients[c].mode == Reentrant(token.id)
    && !s.clients[c].phase.Returned? && t.clients[c].phase.Returned?
  }

  ghost predicate RoundGoesOn(s: State, t: State) {
    RoundOf(t.worker).Some? ==>
      && RoundOf(s.worker).Some?
      && var before, after := RoundOf(s.worker).value, RoundOf(t.worker).value;
         && after.id == before.id
         && (after.boundary == before.boundary
             || exists c: nat :: EndsReentrant(s, t, c, before) && s.clients[c].boundary == after.boundary > before.boundary)
  }

  lemma FinishMovesRound(s: State, c: nat, error: Option<Error>)
    requires c < |s.clients| && !s.clients[c].phase.Returned?
    ensures FinishPersist(s, c, error).rounds == s.rounds
    ensures RoundGoesOn(s, FinishPersist(s, c, error))
  {
    var t := FinishPersist(s, c, error);
    if s.clients[c].mode.Reentrant? && RoundOf(s.worker).Some? && t.worker != s.worker {
      assert EndsReentrant(s, t, c, RoundOf(s.worker).value);
    }
  }

  lemma WriteRaisedMovesRound(s: State, c: nat, configurationError: bool)
    requires c < |s.clients| && s.clients[c].phase.Writing?
    ensures WriteRaised(s, c, configurationError).rounds == s.rounds
    ensures RoundGoesOn(s, WriteRaised(s, c, configurationError))
  {
    hide FinishPersist, SameCalls;
    var u := s.(writes := s.writes + 1, fatal := if configurationError then Some(FatalWrite(s.writes)) else s.fatal);
    var error := if configurationError then Some(FatalWrite(s.writes))
                 else if s.cfg.strict then Some(WriteFailed(s.writes)) else None;
    FinishMovesRound(u, c, error);
    var t := FinishPersist(u, c, error);
    if RoundOf(t.worker).Some? && RoundOf(t.worker).value.boundary != RoundOf(s.worker).value.boundary {
      var k: nat :| EndsReentrant(u, t, k, RoundOf(u.worker).value)
                    && u.clients[k].boundary == RoundOf(t.worker).value.boundary > RoundOf(u.worker).value.boundary;
      assert EndsReentrant(s, t, k, RoundOf(s.worker).value);
    }
  }

  lemma LoopHeadMovesRound(s: State, c: nat)
    requires c < |s.clients| && s.clients[c].phase.Holding?
    ensures LoopHead(s, c).rounds == s.rounds && RoundGoesOn(s, LoopHead(s, c))
  {
    FinishMovesRound(s, c, None);
    FinishMovesRound(s, c, s.fatal);
    hide FinishPersist, CollectBatch;
  }

  lemma StepMovesRound(s: State, a: Action)
    requires Enabled(s, a)
    ensures Apply(s, a).rounds >= s.rounds
    ensures BeginsRound(s, a) ==>
              && RoundOf(Apply(s, a).worker) == Some(Token(s.rounds, s.sequence))
              && Apply(s, a).rounds > s.rounds && !Apply(s, a).wake
    ensures !BeginsRound(s, a) ==> RoundGoesOn(s, Apply(s, a))
  {
    match a
    case DoLoopHead(c) => LoopHeadMovesRound(s, c); hide LoopHead, RoundGoesOn;
    case DoWriteRaised(c, configurationError) => WriteRaisedMovesRound(s, c, configurationError); hide WriteRaised, RoundGoesOn;
    case _ =>
      hide WaitScan, CollectBatch, SequencesUpTo, Flags, CombineErrors, Outstanding, FinishPersist, LoopHead, WriteRaised,
           EndsReentrant;
  }

  // Round ids stay below the counter that the next round takes.
  lemma {:induction false} OlderRounds(cfg: Config, states: seq<State>, actions: seq<Action>, m: nat, n: nat)
    requires IsRun(cfg, states, actions) && m <= n < |states| && RoundOf(states[m].worker).Some?
    ensures RoundOf(states[m].worker).value.id < states[n].rounds
  {
    hide Apply, Enabled, EndsReentrant;
    if n > 0 {
      StepMovesRound(states[n - 1], actions[n - 1]);
      if m == n {
        if !BeginsRound(states[n - 1], actions[n - 1]) { OlderRounds(cfg, states, actions, n - 1, n - 1); }
      } else {
        OlderRounds(cfg, states, actions, m, n - 1);
      }
    }
  }

  /**
   Each round of the worker has a token of its own, never that of an earlier round, so a flush made
   from inside one round cannot widen another. It begins with everything admitted so far as its
   boundary and the wake event cleared; only such a flush moves the boundary, to its own if that is
   larger.
   */
  lemma RoundsHaveOwnTokens(cfg: Config, states: seq<State>, actions: seq<Action>, m: nat, n: nat)
    requires IsRun(cfg, states, actions) && m <= n < |actions|
    ensures BeginsRound(states[n], actions[n]) ==>
              && RoundOf(states[n + 1].worker).Some? && !states[n + 1].wake
              && RoundOf(states[n + 1].worker).value.boundary == states[n].sequence
              && (RoundOf(states[m].worker).Some? ==>
                    RoundOf(states[m].worker).value.id < RoundOf(states[n + 1].worker).value.id)
    ensures !BeginsRound(states[n], actions[n]) ==> RoundGoesOn(states[n], states[n + 1])
  {
    hide Apply, Enabled, RoundGoesOn;
    StepMovesRound(states[n], actions[n]);
    if RoundOf(states[m].worker).Some? { OlderRounds(cfg, states, actions, m, n); }
  }

  // ---------------------------------------------------------------- cancelled callers

  /**
   A cancelled call raises its cancellation and gives up the write lock if it held it. Only the
   timer's cancellation is stored, while the buffer accepts and has no error stored.
   */
  lemma CancellationMeans(s: State, c: nat)
    requires c < |s.clients|
    ensures var t := CancelClient(s, c);
            && t.clients == s.clients[c := s.clients[c].(phase := Returned(Some(CallerCancelled)))]
            && t.lock == (if s.clients[c].phase.Holding? || s.clients[c].phase.Writing? then None else s.lock)
            && t.background == (if s.clients[c].mode == Background && s.lifecycle == Accepting && s.background == None
                                then Some(CallerCancelled) else s.background)
            && t.pending == s.pending && t.committed == s.committed && t.worker == s.worker && t.logs == s.logs
    ensures TimerCancelled(s) == s.(background := if s.lifecycle == Accepting && s.background == None
                                                  then Some(CallerCancelled) else s.background)
  {
  }

  predicate TimerIsCancelled(s: State, a: Action)
    requires Enabled(s, a)
  {
    s.lifecycle == Accepting && (a == DoCancelTimer || (a.DoCancelClient? && s.clients[a.c].mode == Background))
  }

  // In this step a callback failed, the timer was cancelled, or a flush of the timer ended, with `e`.
  ghost predicate Surfaces(s: State, a: Action, t: State, e: Error)
    requires Enabled(s, a)
  {
    || (exists q: nat :: CallbackFails(s, a, q) && e == FailureOf(a, q))
    || (TimerIsCancelled(s, a) && e == CallerCancelled)
    || ((a.DoLoopHead? || a.DoWriteRaised?) && a.c < |t.clients|
        && s.clients[a.c].mode == Background && t.clients[a.c].phase == Returned(Some(e)))
  }

  lemma FinishSurfaces(s: State, c: nat, error: Option<Error>)
    requires c < |s.clients| && !s.clients[c].phase.Returned?
    ensures |FinishPersist(s, c, error).clients| == |s.clients|
    ensures var t := FinishPersist(s, c, error);
            if s.clients[c].mode.Background? then
              t.clients[c].phase == Returned(error) && t.background == (if s.background.None? then error else s.background)
            else t.background == s.background || t.background.None?
  {
  }

  lemma WriteSurfaces(s: State, c: nat, configurationError: bool, e: Error)
    requires Enabled(s, DoWriteRaised(c, configurationError))
    ensures var a, t := DoWriteRaised(c, configurationError), WriteRaised(s, c, configurationError);
            && (t.background == Some(e) && t.background != s.background ==> s.background.None? && Surfaces(s, a, t, e))
            && (s.background.None? && Surfaces(s, a, t, e) ==> t.background == Some(e))
  {
    hide FinishPersist, SameCalls;
    var u := s.(writes := s.writes + 1, fatal := if configurationError then Some(FatalWrite(s.writes)) else s.fatal);
    var error := if configurationError then Some(FatalWrite(s.writes))
                 else if s.cfg.strict then Some(WriteFailed(s.writes)) else None;
    FinishSurfaces(u, c, error);
  }

  lemma LoopHeadSurfaces(s: State, c: nat, e: Error)
    requires Enabled(s, DoLoopHead(c))
    ensures var a, t := DoLoopHead(c), LoopHead(s, c);
            && (t.background == Some(e) && t.background != s.background ==> s.background.None? && Surfaces(s, a, t, e))
            && (s.background.None? && Surfaces(s, a, t, e) ==> t.background == Some(e))
  {
    FinishSurfaces(s, c, None);
    FinishSurfaces(s, c, s.fatal);
    hide FinishPersist, CollectBatch;
  }

  lemma OthersSurfaceNothing(s: State, a: Action)
    requires Enabled(s, a) && !a.DoLoopHead? && !a.DoWriteRaised? && !a.DoReleaseEnds?
    requires !a.DoCancelClient? && !a.DoCancelTimer?
    ensures Apply(s, a).background == s.background || Apply(s, a).background.None?
  {
    hide WaitScan, CollectBatch, SequencesUpTo, Flags, CombineErrors, Outstanding, FinishPersist, LoopHead, WriteRaised,
         RaiseBoundary, WakeClients, SameCalls;
  }

  lemma CallbackSurfaces(s: State, outcome: Outcome, e: Error)
    requires s.worker.Delivering?
    ensures var a, t := DoReleaseEnds(outcome), ReleaseEnds(s, outcome);
            && (t.background == Some(e) && t.background != s.background ==> s.background.None? && Surfaces(s, a, t, e))
            && (s.background.None? && Surfaces(s, a, t, e) ==> t.background == Some(e))
  {
    hide WakeClients, SameCalls;
    if outcome != Delivered { assert CallbackFails(s, DoReleaseEnds(outcome), s.worker.entry.sequence); }
  }

  /**
   Where a background error comes from: a callback that failed, a timer cancelled while the buffer
   accepts, or a flush of the timer that ended with an error. Each of these is stored when no error is,
   nothing else is, and a stored error is not replaced.
   */
  lemma BackgroundErrorsOriginate(s: State, a: Action, e: Error)
    requires Enabled(s, a)
    ensures var t := Apply(s, a);
            && (t.background == Some(e) && t.background != s.background ==> s.background.None? && Surfaces(s, a, t, e))
            && (s.background.None? && Surfaces(s, a, t, e) ==> t.background == Some(e))
  {
    match a
    case DoLoopHead(c) => LoopHeadSurfaces(s, c, e); hide LoopHead, Surfaces;
    case DoWriteRaised(c, configurationError) => WriteSurfaces(s, c, configurationError, e); hide WriteRaised, Surfaces;
    case DoReleaseEnds(outcome) => CallbackSurfaces(s, outcome, e); hide ReleaseEnds, Surfaces;
    case DoCancelClient(c) => CancellationMeans(s, c); hide CancelClient;
    case DoCancelTimer =>
    case _ => OthersSurfaceNothing(s, a); hide Apply;
  }

  // ---------------------------------------------------------------- workers that ended

  predicate SameDeaths(s: State, t: State) {
    t.deathNotices == s.deathNotices && (t.worker == Dead <==> s.worker == Dead)
  }

  lemma FinishKeepsDeaths(s: State, c: nat, error: Option<Error>)
    requires c < |s.clients|
    ensures SameDeaths(s, FinishPersist(s, c, error))
  {
  }

  lemma CallersKeepDeaths(s: State, a: Action)
    requires Enabled(s, a) && !a.DoStartWorker? && !a.DoAdmit? && !a.DoWait? && !a.DoWorkerResume? && !a.DoDrain?
    requires !a.DoReleaseEnds? && !a.DoCancelWorker? && !a.DoWorkerDies? && !a.DoNotifyDeath?
    ensures SameDeaths(s, Apply(s, a))
  {
    hide FinishPersist, CollectBatch, SequencesUpTo, Flags, Outstanding, SameCalls;
    match a
    case DoLoopHead(c) =>
      FinishKeepsDeaths(s, c, None);
      FinishKeepsDeaths(s, c, s.fatal);
    case DoWriteRaised(c, configurationError) =>
      var u := s.(writes := s.writes + 1, fatal := if configurationError then Some(FatalWrite(s.writes)) else s.fatal);
      FinishKeepsDeaths(u, c, if configurationError then Some(FatalWrite(s.writes))
                              else if s.cfg.strict then Some(WriteFailed(s.writes)) else None);
    case _ =>
  }

  /** A done-callback is due for each worker that ended, by cancellation or by a cancelled callback. */
  lemma NoticesCountDeaths(s: State, a: Action)
    requires Enabled(s, a)
    ensures var t := Apply(s, a);
            t.deathNotices == s.deathNotices + (if s.worker != Dead && t.worker == Dead then 1 else 0)
                                             - (if a == DoNotifyDeath then 1 else 0)
  {
    hide WaitScan, WakeClients, SameCalls, FinishPersist;
    match a
    case DoAdmit(_, _) =>
    case DoStartWorker =>
    case DoWait(_) =>
    case DoWorkerResume =>
    case DoDrain =>
    case DoReleaseEnds(_) =>
    case DoCancelWorker =>
    case DoWorkerDies =>
    case DoNotifyDeath =>
    case _ => CallersKeepDeaths(s, a); hide Apply;
  }
}
