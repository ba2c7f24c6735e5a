/**
 The commit/release protocol of the event history buffer, as a state machine.

 Under asyncio the code between two awaits is atomic, so every step below is (a part of) one
 such stretch of `_HistoryBuffer`. Producers admit entries, the holder of the write lock
 persists batches, one worker starts live callbacks, and flush callers wait on both.
 Three logs record what happened: `admitted`, `durable` (entries whose batch write returned)
 and `started` (entries whose release was begun).
 */
module HistoryProtocol {
  import opened Wrappers

  datatype Config = Config(maxPending: nat, batchSize: nat, strict: bool) {
    // What the configuration's own validation guarantees.
    predicate Valid() {
      0 < batchSize <= maxPending
    }
  }

  datatype Entry = Entry(sequence: nat, record: int, hasRelease: bool)

  // Errors carry enough to tell two exception objects apart.
  datatype Error =
    | WriteFailed(attempt: nat)
    | FatalWrite(attempt: nat)
    | ReleaseFailed(sequence: nat)
    | ReleaseCancelled(sequence: nat)
    | CallerCancelled
    | BufferFull
    | NotAccepting

  // The worker's context token: one per drain round.
  datatype Token = Token(id: nat, boundary: nat)

  datatype Worker =
    | Absent                                // no task was ever created
    | Starting                              // about to await the wake event
    | Parked                                // suspended on the wake event
    | Woken                                 // the wake event fired, not yet resumed
    | Draining(token: Token)                // inside a round, between two callbacks
    | Delivering(token: Token, entry: Entry)// inside an entry's callback
    | Cancelling                            // cancelled while suspended outside a callback
    | Dead                                  // ended

  datatype Mode =
    | Waits                                 // an ordinary caller: waits for the releases
    | Background                            // the timer
    | Reentrant(tokenId: nat)               // called from inside an active release callback
    | InLiveCallback                        // called from inside a live delivery callback

  datatype Phase =
    | AwaitingLock
    | Holding                               // owns the write lock, at the head of its loop
    | Writing(batch: seq<Entry>)            // owns the write lock, the batch write is running
    | Waiting(index: nat, error: Option<Error>)
    | ParkedOn(index: nat, error: Option<Error>)
    | Returned(error: Option<Error>)

  // One call of `_flush_to`.
  datatype Client = Client(boundary: nat, targets: seq<nat>, mode: Mode, phase: Phase) {
    predicate HoldsLock() {
      phase.Holding? || phase.Writing?
    }
  }

  datatype Lifecycle = Accepting | Closing | Closed

  datatype State = State(
    cfg: Config,
    pending: seq<Entry>,
    committed: seq<Entry>,
    committedFlags: set<nat>,               // entries with `committed` set
    releasedFlags: set<nat>,                // entries whose `released` event is set
    errors: map<nat, Error>,                // entries with `error` set
    worker: Worker,
    wake: bool,
    rounds: nat,
    deathNotices: nat,                      // done-callbacks of finished workers not yet run
    lock: Option<nat>,                      // the client that holds the write lock
    clients: seq<Client>,
    fatal: Option<Error>,
    background: Option<Error>,
    lifecycle: Lifecycle,
    writes: nat,
    sequence: nat,
    size: int,
    logs: Logs)

  // Ghost history: what was admitted, whose batch write returned, whose release was begun.
  datatype Logs = Logs(admitted: seq<Entry>, durable: seq<Entry>, started: seq<Entry>)

  function Init(cfg: Config): State {
    State(cfg, [], [], {}, {}, map[], Absent, false, 0, 0, None, [], None, None, Accepting, 0, 0, 0,
          Logs([], [], []))
  }

  // ---------------------------------------------------------------- small pieces

  // The same calls of `_flush_to`, each with the boundary, targets and mode it began with.
  ghost predicate SameCalls(s: State, t: State) {
    && |t.clients| == |s.clients|
    && (forall i :: 0 <= i < |s.clients| ==>
          && t.clients[i].boundary == s.clients[i].boundary
          && t.clients[i].targets == s.clients[i].targets
          && t.clients[i].mode == s.clients[i].mode)
  }

  predicate Alive(w: Worker) {
    !w.Absent? && !w.Dead?
  }

  function Active(s: State): seq<Entry> {
    if s.worker.Delivering? then [s.worker.entry] else []
  }

  // Entries whose release has ended, one way or another.
  function Finished(s: State): int {
    |s.logs.started| - |Active(s)|
  }

  function SetWake(s: State): (t: State)
    ensures t.logs == s.logs && t.clients == s.clients
  {
    s.(wake := true, worker := if s.worker.Parked? then Woken else s.worker)
  }

  // `_start_release_worker`
  function EnsureWorker(s: State): (t: State)
    ensures t.logs == s.logs && t.clients == s.clients
  {
    if Alive(s.worker) then s else s.(worker := Starting, wake := s.wake || s.committed != [])
  }

  // `_release_progress.set()`: every parked caller becomes runnable.
  function WakeClient(c: Client): Client {
    match c.phase
    case ParkedOn(i, error) => c.(phase := Waiting(i, error))
    case _ => c
  }

  function WakeClients(cs: seq<Client>): seq<Client> {
    seq(|cs|, i requires 0 <= i < |cs| => WakeClient(cs[i]))
  }

  function Outstanding(s: State): seq<Entry> {
    Active(s) + s.committed + s.pending
  }

  function SequencesUpTo(entries: seq<Entry>, boundary: nat): seq<nat> {
    if entries == [] then []
    else
      (if entries[0].sequence <= boundary then [entries[0].sequence] else [])
      + SequencesUpTo(entries[1..], boundary)
  }

  function CollectBatch(pending: seq<Entry>, boundary: nat, room: nat): seq<Entry> {
    if pending == [] || room == 0 || pending[0].sequence > boundary then []
    else [pending[0]] + CollectBatch(pending[1..], boundary, room - 1)
  }

  function Flags(entries: seq<Entry>): set<nat> {
    set i | 0 <= i < |entries| :: entries[i].sequence
  }

  // ---------------------------------------------------------------- producer steps

  // Why `enqueue` refuses, in the order of its checks.
  function Refusal(s: State): Option<Error> {
    if s.background.Some? then s.background
    else if s.fatal.Some? then s.fatal
    else if !s.lifecycle.Accepting? then Some(NotAccepting)
    else if s.size >= s.cfg.maxPending then Some(BufferFull)
    else None
  }

  function Append(s: State, entry: Entry): State {
    s.(sequence := s.sequence + 1,
       pending := s.pending + [entry],
       logs := s.logs.(admitted := s.logs.admitted + [entry]),
       size := s.size + 1)
  }

  function Admit(s: State, record: int, hasRelease: bool): State {
    EnsureWorker(Append(s, Entry(s.sequence + 1, record, hasRelease)))
  }

  // `_raise_background_error` hands a stored error to the caller once.
  function TakeBackground(s: State): State {
    s.(background := None)
  }

  // ---------------------------------------------------------------- flush steps

  function StartFlush(s: State, mode: Mode): State {
    var targets := SequencesUpTo(Outstanding(s), s.sequence);
    s.(clients := s.clients + [Client(s.sequence, targets, mode, AwaitingLock)])
  }

  function SetPhase(s: State, c: nat, phase: Phase): (t: State)
    requires c < |s.clients|
    ensures t.logs == s.logs && SameCalls(s, t)
  {
    s.(clients := s.clients[c := s.clients[c].(phase := phase)])
  }

  function AcquireLock(s: State, c: nat): State
    requires c < |s.clients|
  {
    SetPhase(s, c, Holding).(lock := Some(c))
  }

  // A non-background caller that raises the stored background error clears it.
  function ReturnWith(s: State, c: nat, error: Option<Error>): (t: State)
    requires c < |s.clients|
    ensures t.logs == s.logs && SameCalls(s, t)
  {
    SetPhase(s, c, Returned(error)).(
      background := if error.Some? && s.background == error then None else s.background)
  }

  function RaiseBoundary(w: Worker, tokenId: nat, boundary: nat): Worker {
    match w
    case Draining(t) =>
      if t.id == tokenId && t.boundary < boundary then Draining(t.(boundary := boundary)) else w
    case Delivering(t, e) =>
      if t.id == tokenId && t.boundary < boundary then Delivering(t.(boundary := boundary), e) else w
    case _ => w
  }

  // `_persist_to` ended: the lock is released and the mode decides what follows.
  function FinishPersist(s: State, c: nat, error: Option<Error>): (t: State)
    requires c < |s.clients|
    ensures t.logs == s.logs && SameCalls(s, t)
    ensures s.clients[c].mode.Waits? ==> t.clients == s.clients[c := s.clients[c].(phase := Waiting(0, error))]
    ensures forall i :: 0 <= i < |s.clients| && i != c ==> t.clients[i] == s.clients[i]
  {
    var u := s.(lock := None);
    match s.clients[c].mode
    case Waits => SetPhase(u, c, Waiting(0, error))
    case InLiveCallback => ReturnWith(u, c, error)
    case Reentrant(id) =>
      ReturnWith(u.(worker := RaiseBoundary(u.worker, id, s.clients[c].boundary)), c, error)
    case Background =>
      SetPhase(u, c, Returned(error)).(
        background := if s.background.None? then error else s.background)
  }

  // The head of the persist loop.
  function LoopHead(s: State, c: nat): State
    requires c < |s.clients|
  {
    var b := s.clients[c].boundary;
    if s.pending == [] || s.pending[0].sequence > b then FinishPersist(s, c, None)
    else if s.fatal.Some? then FinishPersist(s, c, s.fatal)
    else SetPhase(s, c, Writing(CollectBatch(s.pending, b, s.cfg.batchSize)))
  }

  // The write returned: pop as many entries as the batch has, blindly.
  function WriteReturned(s: State, c: nat): State
    requires c < |s.clients| && s.clients[c].phase.Writing?
    requires |s.clients[c].phase.batch| <= |s.pending|
  {
    var batch := s.clients[c].phase.batch;
    SetWake(SetPhase(s, c, Holding).(
              pending := s.pending[|batch|..],
              committed := s.committed + batch,
              committedFlags := s.committedFlags + Flags(batch),
              logs := s.logs.(durable := s.logs.durable + batch),
              writes := s.writes + 1))
  }

  function WriteRaised(s: State, c: nat, configurationError: bool): State
    requires c < |s.clients|
  {
    if configurationError then
      FinishPersist(s.(writes := s.writes + 1, fatal := Some(FatalWrite(s.writes))), c, Some(FatalWrite(s.writes)))
    else
      FinishPersist(s.(writes := s.writes + 1, fatal := s.fatal), c,
                    if s.cfg.strict then Some(WriteFailed(s.writes)) else None)
  }

  // The timer was cancelled: while the buffer accepts, that is an error to surface.
  function TimerCancelled(s: State): State {
    s.(background := if s.lifecycle.Accepting? && s.background.None? then Some(CallerCancelled) else s.background)
  }

  function CancelClient(s: State, c: nat): State
    requires c < |s.clients|
  {
    var t := SetPhase(s, c, Returned(Some(CallerCancelled))).(
      lock := if s.clients[c].HoldsLock() then None else s.lock);
    if s.clients[c].mode.Background? then TimerCancelled(t) else t
  }

  // A later error replaces an earlier one only when it is a cancellation.
  function CombineErrors(first: Option<Error>, errors: map<nat, Error>, q: nat): Option<Error> {
    if q in errors && (first.None? || errors[q].ReleaseCancelled?) then Some(errors[q]) else first
  }

  datatype WaitResult = Done(error: Option<Error>) | Stuck(index: nat, error: Option<Error>)

  // `_wait_for_releases` from its `i`-th target up to its next await, or its end.
  function WaitScan(s: State, targets: seq<nat>, i: nat, error: Option<Error>): WaitResult
    requires i <= |targets|
    decreases |targets| - i
  {
    if i == |targets| then Done(error)
    else if targets[i] !in s.committedFlags then WaitScan(s, targets, i + 1, error)
    else if targets[i] !in s.releasedFlags then Stuck(i, error)
    else WaitScan(s, targets, i + 1, CombineErrors(error, s.errors, targets[i]))
  }

  function WaitStep(s: State, c: nat): State
    requires c < |s.clients| && s.clients[c].phase.Waiting?
    requires s.clients[c].phase.index <= |s.clients[c].targets|
  {
    var client := s.clients[c];
    match WaitScan(s, client.targets, client.phase.index, client.phase.error)
    case Done(error) => ReturnWith(s, c, error)
    case Stuck(i, error) => EnsureWorker(SetPhase(s, c, ParkedOn(i, error)))
  }

  // ---------------------------------------------------------------- worker steps

  function BeginRound(s: State): State {
    s.(wake := false, worker := Draining(Token(s.rounds, s.sequence)), rounds := s.rounds + 1)
  }

  // The worker reaches, or resumes from, the wait on its wake event.
  function WorkerResume(s: State): State {
    if s.worker.Woken? || s.wake then BeginRound(s) else s.(worker := Parked)
  }

  function FinishEntry(s: State, token: Token, entry: Entry, error: Option<Error>): (t: State)
    ensures t.logs == s.logs && SameCalls(s, t)
  {
    var dies := error.Some? && error.value.ReleaseCancelled?;
    s.(worker := if dies then Dead else Draining(token),
       deathNotices := if dies then s.deathNotices + 1 else s.deathNotices,
       errors := if error.Some? then s.errors[entry.sequence := error.value] else s.errors,
       background := if s.background.None? then error else s.background,
       releasedFlags := s.releasedFlags + {entry.sequence},
       clients := WakeClients(s.clients),
       size := s.size - 1)
  }

  // One turn of the worker's inner loop, or its exit.
  function DrainStep(s: State): State
    requires s.worker.Draining?
  {
    var token := s.worker.token;
    if s.committed != [] && s.committed[0].sequence <= token.boundary then
      var entry := s.committed[0];
      var t := s.(committed := s.committed[1..], logs := s.logs.(started := s.logs.started + [entry]));
      if entry.hasRelease then t.(worker := Delivering(token, entry))
      else FinishEntry(t, token, entry, None)
    else
      s.(worker := Starting, wake := s.wake || s.committed != [])
  }

  datatype Outcome = Delivered | Raised | WasCancelled

  function ReleaseError(outcome: Outcome, sequence: nat): Option<Error> {
    match outcome
    case Delivered => None
    case Raised => Some(ReleaseFailed(sequence))
    case WasCancelled => Some(ReleaseCancelled(sequence))
  }

  function ReleaseEnds(s: State, outcome: Outcome): State
    requires s.worker.Delivering?
  {
    var entry := s.worker.entry;
    FinishEntry(s, s.worker.token, entry, ReleaseError(outcome, entry.sequence))
  }

  function WorkerDies(s: State): State {
    s.(worker := Dead, deathNotices := s.deathNotices + 1)
  }

  // `_release_finished`, the done-callback of a worker task.
  function NotifyDeath(s: State): State
    requires s.deathNotices > 0
  {
    s.(deathNotices := s.deathNotices - 1, clients := WakeClients(s.clients))
  }

  // ---------------------------------------------------------------- the transition system

  datatype Action =
    | DoAdmit(record: int, hasRelease: bool)
    | DoTakeBackground
    | DoStartWorker
    | DoStartFlush(mode: Mode)
    | DoAcquireLock(c: nat)
    | DoLoopHead(c: nat)
    | DoWriteReturned(c: nat)
    | DoWriteRaised(c: nat, configurationError: bool)
    | DoCancelClient(c: nat)
    | DoCancelTimer                           // cancelled between two flushes
    | DoWait(c: nat)
    | DoWorkerResume
    | DoDrain
    | DoReleaseEnds(outcome: Outcome)
    | DoCancelWorker
    | DoWorkerDies
    | DoNotifyDeath
    | DoBeginClose
    | DoClose

  predicate Enabled(s: State, a: Action) {
    match a
    case DoAdmit(_, _) => Refusal(s).None?
    case DoTakeBackground => true
    case DoStartWorker => true
    case DoStartFlush(_) => true
    case DoAcquireLock(c) => s.lock.None? && c < |s.clients| && s.clients[c].phase.AwaitingLock?
    case DoLoopHead(c) => c < |s.clients| && s.clients[c].phase.Holding?
    case DoWriteReturned(c) =>
      c < |s.clients| && s.clients[c].phase.Writing? && |s.clients[c].phase.batch| <= |s.pending|
    case DoWriteRaised(c, _) => c < |s.clients| && s.clients[c].phase.Writing?
    case DoCancelClient(c) => c < |s.clients| && !s.clients[c].phase.Returned?
    case DoCancelTimer => true
    case DoWait(c) =>
      c < |s.clients| && s.clients[c].phase.Waiting? && s.clients[c].phase.index <= |s.clients[c].targets|
    case DoWorkerResume => s.worker.Starting? || s.worker.Woken?
    case DoDrain => s.worker.Draining?
    case DoReleaseEnds(_) => s.worker.Delivering?
    case DoCancelWorker => s.worker.Starting? || s.worker.Parked? || s.worker.Woken?
    case DoWorkerDies => s.worker.Cancelling?
    case DoNotifyDeath => s.deathNotices > 0
    case DoBeginClose => s.lifecycle.Accepting?
    case DoClose => s.lifecycle.Closing?
  }

  function Apply(s: State, a: Action): State
    requires Enabled(s, a)
  {
    match a
    case DoAdmit(record, hasRelease) => Admit(s, record, hasRelease)
    case DoTakeBackground => TakeBackground(s)
    case DoStartWorker => EnsureWorker(s)
    case DoStartFlush(mode) => StartFlush(s, mode)
    case DoAcquireLock(c) => AcquireLock(s, c)
    case DoLoopHead(c) => LoopHead(s, c)
    case DoWriteReturned(c) => WriteReturned(s, c)
    case DoWriteRaised(c, configurationError) => WriteRaised(s, c, configurationError)
    case DoCancelClient(c) => CancelClient(s, c)
    case DoCancelTimer => TimerCancelled(s)
    case DoWait(c) => WaitStep(s, c)
    case DoWorkerResume => WorkerResume(s)
    case DoDrain => DrainStep(s)
    case DoReleaseEnds(outcome) => ReleaseEnds(s, outcome)
    case DoCancelWorker => s.(worker := Cancelling)
    case DoWorkerDies => WorkerDies(s)
    case DoNotifyDeath => NotifyDeath(s)
    case DoBeginClose => s.(lifecycle := Closing, background := None)
    case DoClose => s.(lifecycle := Closed, background := None)
  }
}
