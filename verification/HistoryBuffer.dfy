/**
 `_HistoryBuffer` itself: an object whose methods are the stretches of code between two awaits.
 Each method is tied to a step of `HistoryProtocol`, whose runs `HistoryTheorems` speaks of.
 */
module HistoryBuffer {
  import opened Wrappers
  import opened HistoryProtocol
  import opened HistoryInvariant

  class HistoryBuffer {
    const cfg: Config
    var pending: seq<Entry>
    var committed: seq<Entry>
    var committedFlags: set<nat>
    var releasedFlags: set<nat>
    var errors: map<nat, Error>
    var worker: Worker
    var wake: bool
    var rounds: nat
    var deathNotices: nat
    var lock: Option<nat>
    var clients: seq<Client>
    var fatal: Option<Error>
    var background: Option<Error>
    var lifecycle: Lifecycle
    var writes: nat
    var sequence: nat
    var size: int
    ghost var logs: Logs

    ghost function View(): State
      reads this
    {
      State(cfg, pending, committed, committedFlags, releasedFlags, errors, worker, wake, rounds, deathNotices,
            lock, clients, fatal, background, lifecycle, writes, sequence, size, logs)
    }

    ghost predicate Valid()
      reads this
    {
      Inv(View())
    }

    constructor (cfg: Config)
      requires cfg.Valid()
      ensures Valid() && View() == Init(cfg)
      ensures pending == [] && committed == [] && sequence == 0 && size == 0 && writes == 0
      ensures worker == Absent && !wake && lock.None? && clients == [] && lifecycle == Accepting
      ensures fatal.None? && background.None? && errors == map[]
    {
      this.cfg := cfg;
      pending, committed := [], [];
      committedFlags, releasedFlags, errors := {}, {}, map[];
      worker, wake, rounds, deathNotices := Absent, false, 0, 0;
      lock, clients := None, [];
      fatal, background, lifecycle, writes := None, None, Accepting, 0;
      sequence, size := 0, 0;
      logs := Logs([], [], []);
      new;
      InitInv(cfg);
    }

    method StartReleaseWorker()
      requires Valid()
      modifies this
      ensures Valid() && View() == EnsureWorker(old(View()))
    {
      EnsureWorkerInv(View());
      hide Inv;
      RestartWorker();
    }

    method RestartWorker()
      modifies this
      ensures View() == EnsureWorker(old(View()))
    {
      if !Alive(worker) {
        worker := Starting;
        if committed != [] {
          wake := true;
        }
      }
    }

    method RaiseBackgroundError() returns (error: Option<Error>)
      requires Valid()
      modifies this
      ensures Valid() && View() == TakeBackground(old(View())) && error == old(background)
    {
      BackgroundInv(View(), None);
      hide Inv;
      error := background;
      background := None;
    }

    // `_run_timer` is cancelled outside a flush.
    method CancelTimer()
      requires Valid()
      modifies this
      ensures Valid() && View() == TimerCancelled(old(View()))
    {
      BackgroundInv(View(), TimerCancelled(View()).background);
      hide Inv;
      if lifecycle.Accepting? && background.None? {
        background := Some(CallerCancelled);
      }
    }

    method AppendEntry(record: int, hasRelease: bool)
      modifies this
      ensures View() == Append(old(View()), Entry(old(sequence) + 1, record, hasRelease))
    {
      sequence := sequence + 1;
      var entry := Entry(sequence, record, hasRelease);
      pending := pending + [entry];
      logs := logs.(admitted := logs.admitted + [entry]);
      size := size + 1;
    }

    // `enqueue` up to its flush; `flushNow` tells whether it goes on to `_flush_to(boundary)`.
    method Enqueue(record: int, hasRelease: bool, barrier: bool, retryDue: bool)
      returns (r: Result<nat, Error>, flushNow: bool)
      requires Valid()
      modifies this
      ensures Valid()
      ensures Refusal(old(View())).Some? ==>
                r == Failure(Refusal(old(View())).value) && !flushNow && View() == TakeBackground(old(View()))
      ensures Refusal(old(View())).None? ==>
                && r == Success(sequence)
                && View() == Admit(old(View()), record, hasRelease)
                && (flushNow <==> barrier || (|pending| >= cfg.batchSize && retryDue))
    {
      hide Inv, EnsureWorker;
      var raised := RaiseBackgroundError();
      if raised.Some? {
        return Failure(raised.value), false;
      }
      if fatal.Some? {
        return Failure(fatal.value), false;
      }
      if !lifecycle.Accepting? {
        return Failure(NotAccepting), false;
      }
      if size >= cfg.maxPending {
        return Failure(BufferFull), false;
      }
      AppendInv(View(), Entry(sequence + 1, record, hasRelease));
      AppendEntry(record, hasRelease);
      StartReleaseWorker();
      r := Success(sequence);
      flushNow := barrier || (|pending| >= cfg.batchSize && retryDue);
    }

    // The sequence numbers `_flush_to` will watch.
    method CollectTargets(boundary: nat) returns (targets: seq<nat>)
      ensures targets == SequencesUpTo(Outstanding(View()), boundary)
    {
      var entries := committed + pending;
      if worker.Delivering? {
        entries := [worker.entry] + entries;
      }
      assert entries == Outstanding(View());
      hide *;
      targets := [];
      var i := 0;
      while i < |entries|
        invariant 0 <= i <= |entries|
        invariant targets + SequencesUpTo(entries[i..], boundary) == SequencesUpTo(entries, boundary)
      {
        SequencesHead(entries, i, boundary);
        if entries[i].sequence <= boundary {
          targets := targets + [entries[i].sequence];
        }
        i := i + 1;
      }
      SequencesEnd(entries, boundary);
    }

    // `_flush_to` up to the wait for the write lock.
    method BeginFlush(mode: Mode) returns (c: nat)
      requires Valid()
      modifies this
      ensures Valid() && View() == StartFlush(old(View()), mode)
      ensures c == |old(clients)|
    {
      StartFlushInv(View(), mode);
      hide Inv, Outstanding, SequencesUpTo;
      var targets := CollectTargets(sequence);
      c := |clients|;
      clients := clients + [Client(sequence, targets, mode, AwaitingLock)];
    }

    method TakeLock(c: nat)
      requires Valid() && lock.None? && c < |clients| && clients[c].phase.AwaitingLock?
      modifies this
      ensures Valid() && View() == AcquireLock(old(View()), c)
    {
      AcquireLockInv(View(), c);
      hide Inv;
      clients := clients[c := clients[c].(phase := Holding)];
      lock := Some(c);
    }

    // The end of `_flush_to`: an error that is raised is no longer a background error.
    method ReturnCall(c: nat, error: Option<Error>)
      requires c < |clients|
      modifies this
      ensures View() == ReturnWith(old(View()), c, error)
    {
      clients := clients[c := clients[c].(phase := Returned(error))];
      if error.Some? && background == error { background := None; }
    }

    // The end of `_persist_to`, and what `_flush_to` does next in each mode.
    method LeavePersist(c: nat, error: Option<Error>)
      requires c < |clients|
      modifies this
      ensures View() == FinishPersist(old(View()), c, error)
    {
      hide ReturnWith, RaiseBoundary;
      lock := None;
      match clients[c].mode {
        case Waits =>
          clients := clients[c := clients[c].(phase := Waiting(0, error))];
        case Background =>
          clients := clients[c := clients[c].(phase := Returned(error))];
          if background.None? { background := error; }
        case Reentrant(id) =>
          worker := RaiseBoundary(worker, id, clients[c].boundary);
          ReturnCall(c, error);
        case InLiveCallback =>
          ReturnCall(c, error);
      }
    }

    // The batch the persist loop writes next.
    method NextBatch(boundary: nat) returns (batch: seq<Entry>)
      ensures batch == CollectBatch(pending, boundary, cfg.batchSize)
    {
      batch := [];
      var i := 0;
      while i < |pending| && pending[i].sequence <= boundary && |batch| < cfg.batchSize
        invariant 0 <= i <= |pending| && |batch| <= cfg.batchSize
        invariant batch + CollectBatch(pending[i..], boundary, cfg.batchSize - |batch|)
               == CollectBatch(pending, boundary, cfg.batchSize)
      {
        assert pending[i..][1..] == pending[i + 1..];
        batch := batch + [pending[i]];
        i := i + 1;
      }
    }

    // The head of the persist loop: stop, or collect the next batch and start writing it.
    method PersistHead(c: nat)
      requires Valid() && c < |clients| && clients[c].phase.Holding?
      modifies this
      ensures Valid() && View() == LoopHead(old(View()), c)
    {
      LoopHeadInv(View(), c);
      hide Inv, FinishPersist, CollectBatch;
      if pending == [] || pending[0].sequence > clients[c].boundary {
        LeavePersist(c, None);
      } else if fatal.Some? {
        LeavePersist(c, fatal);
      } else {
        var batch := NextBatch(clients[c].boundary);
        clients := clients[c := clients[c].(phase := Writing(batch))];
      }
    }

    // One blind `popleft` per written entry.
    method PopWritten(batch: seq<Entry>)
      requires |batch| <= |pending|
      modifies this
      ensures View() == old(View()).(pending := old(pending)[|batch|..],
                                     committed := old(committed) + batch,
                                     committedFlags := old(committedFlags) + Flags(batch))
    {
      var i := 0;
      while i < |batch|
        invariant 0 <= i <= |batch|
        invariant View() == old(View()).(pending := old(pending)[i..],
                                         committed := old(committed) + batch[..i],
                                         committedFlags := old(committedFlags) + Flags(batch[..i]))
      {
        FlagsOfPrefix(batch, i);
        pending := pending[1..];
        committedFlags := committedFlags + {batch[i].sequence};
        committed := committed + [batch[i]];
        i := i + 1;
      }
      assert batch[..i] == batch;
    }

    // `_release_wake.set()`
    method SetReleaseWake()
      modifies this
      ensures View() == SetWake(old(View()))
    {
      wake := true;
      if worker.Parked? { worker := Woken; }
    }

    method FinishWrite(c: nat, batch: seq<Entry>)
      requires c < |clients| && clients[c].phase == Writing(batch) && |batch| <= |pending|
      modifies this
      ensures View() == WriteReturned(old(View()), c)
    {
      hide SetWake, Flags;
      PopWritten(batch);
      logs := logs.(durable := logs.durable + batch);
      writes := writes + 1;
      clients := clients[c := clients[c].(phase := Holding)];
      SetReleaseWake();
    }

    // The awaited write returned.
    method CommitBatch(c: nat)
      requires Valid() && c < |clients| && clients[c].phase.Writing?
      modifies this
      ensures |old(clients[c].phase.batch)| <= |old(pending)|
      ensures Valid() && View() == WriteReturned(old(View()), c)
    {
      WriteReturnedInv(View(), c);
      hide Inv;
      FinishWrite(c, clients[c].phase.batch);
    }

    method CountWrite(fatalError: Option<Error>)
      modifies this
      ensures View() == old(View()).(writes := old(writes) + 1, fatal := fatalError)
    {
      writes := writes + 1;
      fatal := fatalError;
    }

    method HandleWriteError(c: nat, configurationError: bool)
      requires c < |clients|
      modifies this
      ensures View() == WriteRaised(old(View()), c, configurationError)
    {
      hide FinishPersist;
      var attempt := writes;
      if configurationError {
        CountWrite(Some(FatalWrite(attempt)));
        LeavePersist(c, Some(FatalWrite(attempt)));
      } else {
        CountWrite(fatal);
        LeavePersist(c, if cfg.strict then Some(WriteFailed(attempt)) else None);
      }
    }

    // The awaited write raised.
    method FailWrite(c: nat, configurationError: bool)
      requires Valid() && c < |clients| && clients[c].phase.Writing?
      modifies this
      ensures Valid() && View() == WriteRaised(old(View()), c, configurationError)
    {
      WriteRaisedInv(View(), c, configurationError);
      hide Inv, WriteRaised;
      HandleWriteError(c, configurationError);
    }

    // The scan of `_wait_for_releases` over its targets, and what follows where it stops.
    method ScanTargets(c: nat)
      requires c < |clients| && clients[c].phase.Waiting? && clients[c].phase.index <= |clients[c].targets|
      modifies this
      ensures View() == WaitStep(old(View()), c)
    {
      ghost var s := View();
      var targets := clients[c].targets;
      var i, error := clients[c].phase.index, clients[c].phase.error;
      while i < |targets| && (targets[i] !in committedFlags || targets[i] in releasedFlags)
        invariant i <= |targets|
        invariant WaitScan(s, targets, i, error)
               == WaitScan(s, targets, s.clients[c].phase.index, s.clients[c].phase.error)
      {
        if targets[i] in committedFlags && targets[i] in errors
           && (error.None? || errors[targets[i]].ReleaseCancelled?) {
          error := Some(errors[targets[i]]);
        }
        i := i + 1;
      }
      if i < |targets| {
        clients := clients[c := clients[c].(phase := ParkedOn(i, error))];
        RestartWorker();
      } else {
        clients := clients[c := clients[c].(phase := Returned(error))];
        if error.Some? && background == error {
          background := None;
        }
      }
    }

    // `_wait_for_releases` between two awaits, and the end of `_flush_to`.
    method WaitForReleases(c: nat)
      requires Valid() && c < |clients| && clients[c].phase.Waiting?
      modifies this
      ensures old(clients[c].phase.index) <= |old(clients[c].targets)|
      ensures Valid() && View() == WaitStep(old(View()), c)
    {
      WaitStepInv(View(), c);
      hide Inv, WaitStep;
      ScanTargets(c);
    }

    method BeginDraining()
      modifies this
      ensures View() == BeginRound(old(View()))
    {
      wake := false;
      worker := Draining(Token(rounds, sequence));
      rounds := rounds + 1;
    }

    // The worker reaches, or resumes from, `await self._release_wake.wait()`.
    method ResumeWorker()
      requires Valid() && (worker.Starting? || worker.Woken?)
      modifies this
      ensures Valid() && View() == WorkerResume(old(View()))
    {
      WorkerResumeInv(View());
      hide Inv, BeginRound;
      if worker.Woken? || wake {
        BeginDraining();
      } else {
        worker := Parked;
      }
    }

    // `entry.error` and the background error of a failed release.
    method NoteOutcome(entry: Entry, error: Option<Error>)
      modifies this
      ensures View() == old(View()).(errors := if error.Some? then old(errors)[entry.sequence := error.value] else old(errors),
                                     background := if old(background).None? then error else old(background))
    {
      if error.Some? { errors := errors[entry.sequence := error.value]; }
      if background.None? { background := error; }
    }

    // `entry.released.set()`, the progress event and the freed slot.
    method MarkReleased(entry: Entry)
      modifies this
      ensures View() == old(View()).(releasedFlags := old(releasedFlags) + {entry.sequence},
                                     clients := WakeClients(old(clients)), size := old(size) - 1)
    {
      hide WakeClients;
      releasedFlags := releasedFlags + {entry.sequence};
      clients := WakeClients(clients);
      size := size - 1;
    }

    // The `finally` around one release.
    method EndRelease(token: Token, entry: Entry, error: Option<Error>)
      modifies this
      ensures View() == FinishEntry(old(View()), token, entry, error)
    {
      hide WakeClients;
      var dies := error.Some? && error.value.ReleaseCancelled?;
      worker := if dies then Dead else Draining(token);
      if dies { deathNotices := deathNotices + 1; }
      NoteOutcome(entry, error);
      MarkReleased(entry);
    }

    // One turn of the worker's loop over `_committed`.
    method DrainOne()
      requires Valid() && worker.Draining?
      modifies this
      ensures Valid() && View() == DrainStep(old(View()))
    {
      DrainStepInv(View());
      hide Inv;
      var token := worker.token;
      if committed != [] && committed[0].sequence <= token.boundary {
        var entry := committed[0];
        committed := committed[1..];
        logs := logs.(started := logs.started + [entry]);
        if entry.hasRelease {
          worker := Delivering(token, entry);
        } else {
          EndRelease(token, entry, None);
        }
      } else {
        wake := wake || committed != [];
        worker := Starting;
      }
    }

    // `_release_finished`, the done-callback of a worker: nobody stays parked on a dead worker.
    method ReleaseFinished()
      requires Valid() && deathNotices > 0
      modifies this
      ensures Valid() && View() == NotifyDeath(old(View()))
    {
      NotifyDeathInv(View());
      hide Inv, WakeClients;
      deathNotices := deathNotices - 1;
      clients := WakeClients(clients);
    }

    // The awaited live callback returned, raised or was cancelled.
    method CallbackEnds(outcome: Outcome)
      requires Valid() && worker.Delivering?
      modifies this
      ensures Valid() && View() == ReleaseEnds(old(View()), outcome)
    {
      FinishEntryInv(View(), ReleaseError(outcome, worker.entry.sequence));
      hide Inv;
      EndRelease(worker.token, worker.entry, ReleaseError(outcome, worker.entry.sequence));
    }
  }

  lemma SequencesHead(entries: seq<Entry>, i: nat, boundary: nat)
    requires i < |entries|
    ensures SequencesUpTo(entries[i..], boundary)
         == (if entries[i].sequence <= boundary then [entries[i].sequence] else []) + SequencesUpTo(entries[i + 1..], boundary)
  {
  }

  lemma SequencesEnd(entries: seq<Entry>, boundary: nat)
    ensures entries[0..] == entries && SequencesUpTo(entries[|entries|..], boundary) == []
  {
  }

  lemma FlagsOfPrefix(batch: seq<Entry>, i: nat)
    requires i < |batch|
    ensures Flags(batch[..i + 1]) == Flags(batch[..i]) + {batch[i].sequence}
  {
  }
}
