/** What every step of the commit/release protocol keeps. */
module HistoryInvariant {
  import opened Wrappers
  import opened HistoryProtocol

  // ---------------------------------------------------------------- the invariant

  // Admitted, durable and started are nested prefixes; the two deques are the gaps between them.
  ghost predicate LogsInv(s: State) {
    && |s.logs.admitted| == s.sequence
    && (forall i :: 0 <= i < |s.logs.admitted| ==> s.logs.admitted[i].sequence == i + 1)
    && |s.logs.started| <= |s.logs.durable| <= |s.logs.admitted|
    && s.logs.durable == s.logs.admitted[..|s.logs.durable|]
    && s.logs.started == s.logs.admitted[..|s.logs.started|]
    && s.committed == s.logs.admitted[|s.logs.started|..|s.logs.durable|]
    && s.pending == s.logs.admitted[|s.logs.durable|..]
    && (s.worker.Delivering? ==> |s.logs.started| > 0 && s.worker.entry == s.logs.started[|s.logs.started| - 1])
  }

  ghost predicate SizeInv(s: State) {
    && s.size == |s.pending| + |s.committed| + |Active(s)|
    && s.size <= s.cfg.maxPending
  }

  ghost predicate FlagsInv(s: State) {
    && (forall q :: q in s.committedFlags <==> 1 <= q <= |s.logs.durable|)
    && (forall q :: q in s.releasedFlags <==> 1 <= q <= Finished(s))
    && s.errors.Keys <= s.releasedFlags
  }

  // A worker that sleeps has nothing to do; one that is about to test the event will see it set.
  ghost predicate WakeInv(s: State) {
    && (s.worker.Parked? ==> s.committed == [] && !s.wake)
    && (s.worker.Starting? && s.committed != [] ==> s.wake)
  }

  ghost predicate LockInv(s: State) {
    && (s.lock.Some? ==> s.lock.value < |s.clients|)
    && (forall i :: 0 <= i < |s.clients| ==> (s.clients[i].HoldsLock() <==> s.lock == Some(i)))
  }

  ghost predicate Core(s: State) {
    s.cfg.Valid() && LogsInv(s) && SizeInv(s) && FlagsInv(s) && WakeInv(s) && LockInv(s)
  }

  // Someone will still set the progress event: a live worker, or a dead one's callback.
  predicate CanNotify(s: State) {
    Alive(s.worker) || s.deathNotices > 0
  }

  ghost predicate Ascending(xs: seq<nat>) {
    forall i, j :: 0 <= i < j < |xs| ==> xs[i] < xs[j]
  }

  // Every entry up to the boundary was finished when the call began, or is one of its targets.
  ghost predicate TargetsInv(s: State, c: Client) {
    && c.boundary <= s.sequence
    && Ascending(c.targets)
    && (forall q :: q in c.targets ==> 1 <= q <= c.boundary)
    && (forall q: nat :: 1 <= q <= c.boundary ==> q in s.releasedFlags || q in c.targets)
  }

  // The first `i` targets are released, without error unless one is being carried.
  ghost predicate ScannedInv(s: State, c: Client, i: nat, error: Option<Error>) {
    && c.mode.Waits?
    && i <= |c.targets|
    && (forall k :: 0 <= k < i ==> c.targets[k] in s.releasedFlags)
    && (error.None? ==> forall k :: 0 <= k < i ==> c.targets[k] !in s.errors)
    && (error.None? && s.cfg.strict ==> c.boundary <= |s.logs.durable|)
  }

  ghost predicate PhaseInv(s: State, c: Client) {
    match c.phase
    case Writing(batch) =>
      && 0 < |batch| <= |s.pending|
      && |batch| <= s.cfg.batchSize
      && batch == s.pending[..|batch|]
      && batch[|batch| - 1].sequence <= c.boundary
    case Waiting(i, error) => ScannedInv(s, c, i, error)
    case ParkedOn(i, error) =>
      && ScannedInv(s, c, i, error)
      && i < |c.targets|
      && c.targets[i] in s.committedFlags
      && c.targets[i] !in s.releasedFlags
      && CanNotify(s)
    case Returned(error) =>
      error.None? && c.mode.Waits? && s.cfg.strict ==> ScannedInv(s, c, |c.targets|, None)
    case _ => true
  }

  ghost predicate ClientInv(s: State, c: Client) {
    TargetsInv(s, c) && PhaseInv(s, c)
  }

  ghost predicate ClientsInv(s: State) {
    forall i :: 0 <= i < |s.clients| ==> ClientInv(s, s.clients[i])
  }

  ghost predicate Inv(s: State) {
    Core(s) && ClientsInv(s)
  }

  lemma InitInv(cfg: Config)
    requires cfg.Valid()
    ensures Inv(Init(cfg))
  {
  }

  // ---------------------------------------------------------------- frames for clients

  // `t` is at least as far as `s` in everything a client relies on.
  ghost predicate Extends(s: State, t: State) {
    && t.cfg == s.cfg
    && s.sequence <= t.sequence
    && |s.logs.durable| <= |t.logs.durable|
    && s.committedFlags <= t.committedFlags
    && s.releasedFlags <= t.releasedFlags
    && (forall q :: q in s.releasedFlags && q in t.errors ==> q in s.errors)
  }

  // A client that the step does not touch.
  lemma ClientKept(s: State, t: State, c: Client)
    requires ClientInv(s, c) && Extends(s, t)
    requires c.phase.Writing? ==> s.pending <= t.pending
    requires c.phase.ParkedOn? ==> t.releasedFlags == s.releasedFlags && (CanNotify(s) ==> CanNotify(t))
    ensures ClientInv(t, c)
  {
  }

  // A client across a step that sets the progress event.
  lemma ClientWoken(s: State, t: State, c: Client)
    requires ClientInv(s, c) && Extends(s, t)
    requires c.phase.Writing? ==> s.pending <= t.pending
    ensures ClientInv(t, WakeClient(c))
  {
  }

  // Steps that leave the client list alone.
  lemma ClientsKept(s: State, t: State)
    requires ClientsInv(s) && Extends(s, t) && t.clients == s.clients
    requires s.pending <= t.pending
    requires t.releasedFlags == s.releasedFlags && (CanNotify(s) ==> CanNotify(t))
    ensures ClientsInv(t)
  {
  }

  // Steps that replace one client.
  lemma OneClientChanged(s: State, t: State, c: nat)
    requires ClientsInv(s) && Extends(s, t)
    requires c < |s.clients| == |t.clients|
    requires forall i :: 0 <= i < |s.clients| && i != c ==> t.clients[i] == s.clients[i]
    requires forall i :: 0 <= i < |s.clients| && i != c && s.clients[i].phase.Writing? ==> s.pending <= t.pending
    requires t.releasedFlags == s.releasedFlags && (CanNotify(s) ==> CanNotify(t))
    requires ClientInv(t, t.clients[c])
    ensures ClientsInv(t)
  {
  }

  // Steps that wake every parked client.
  lemma ClientsWoken(s: State, t: State)
    requires ClientsInv(s) && Extends(s, t) && t.clients == WakeClients(s.clients)
    requires s.pending <= t.pending
    ensures ClientsInv(t)
  {
    forall i | 0 <= i < |t.clients| ensures ClientInv(t, t.clients[i]) {
      ClientWoken(s, t, s.clients[i]);
    }
  }

  // ---------------------------------------------------------------- facts about the pieces

  // The entries not yet finished are the tail of the admission log.
  lemma OutstandingIsTail(s: State)
    requires LogsInv(s)
    ensures 0 <= Finished(s) <= |s.logs.admitted|
    ensures Outstanding(s) == s.logs.admitted[Finished(s)..]
  {
  }

  function Consecutive(first: nat, count: nat): seq<nat> {
    seq(count, i requires 0 <= i < count => first + i)
  }

  lemma ConsecutiveFrom(first: nat, count: nat)
    ensures Consecutive(first, 0) == []
    ensures Consecutive(first, count + 1) == [first] + Consecutive(first + 1, count)
  {
  }

  function CountUpTo(first: nat, boundary: nat, length: nat): nat {
    if boundary < first then 0 else if boundary - first < length then boundary - first + 1 else length
  }

  lemma {:induction false} SequencesAreConsecutive(entries: seq<Entry>, first: nat, boundary: nat)
    requires forall i :: 0 <= i < |entries| ==> entries[i].sequence == first + i
    ensures SequencesUpTo(entries, boundary) == Consecutive(first, CountUpTo(first, boundary, |entries|))
  {
    hide Consecutive;
    ConsecutiveFrom(first, 0);
    if entries != [] {
      SequencesAreConsecutive(entries[1..], first + 1, boundary);
      ConsecutiveFrom(first + 1, 0);
      ConsecutiveFrom(first, CountUpTo(first + 1, boundary, |entries| - 1));
    }
  }

  lemma SequencesOfRun(entries: seq<Entry>, first: nat, boundary: nat)
    requires forall i :: 0 <= i < |entries| ==> entries[i].sequence == first + i
    ensures var r := SequencesUpTo(entries, boundary);
            && Ascending(r)
            && (forall q :: q in r <==> first <= q <= boundary && q < first + |entries|)
  {
    SequencesAreConsecutive(entries, first, boundary);
    hide SequencesUpTo;
    var r := SequencesUpTo(entries, boundary);
    forall q | first <= q < first + |r| ensures q in r {
      assert r[q - first] == q;
    }
  }

  // A flush that starts now has exactly the unfinished entries as its targets.
  lemma TargetsOfNewClient(s: State, mode: Mode)
    requires Core(s)
    ensures TargetsInv(s, Client(s.sequence, SequencesUpTo(Outstanding(s), s.sequence), mode, AwaitingLock))
  {
    OutstandingIsTail(s);
    SequencesOfRun(Outstanding(s), Finished(s) + 1, s.sequence);
  }

  lemma {:induction false} BatchIsPrefix(pending: seq<Entry>, boundary: nat, room: nat)
    ensures var b := CollectBatch(pending, boundary, room);
            && |b| <= |pending| && |b| <= room && b == pending[..|b|]
            && (forall i :: 0 <= i < |b| ==> b[i].sequence <= boundary)
            && (|b| < |pending| && |b| < room ==> pending[|b|].sequence > boundary)
  {
    if pending != [] && room != 0 && pending[0].sequence <= boundary {
      BatchIsPrefix(pending[1..], boundary, room - 1);
    }
  }

  // ---------------------------------------------------------------- producer and lifecycle steps

  lemma EnsureWorkerInv(s: State)
    requires Inv(s)
    ensures Inv(EnsureWorker(s))
  {
    ClientsKept(s, EnsureWorker(s));
  }

  lemma AppendCore(s: State, entry: Entry)
    requires Core(s) && s.size < s.cfg.maxPending && entry.sequence == s.sequence + 1
    ensures Core(Append(s, entry))
  {
  }

  lemma AppendInv(s: State, entry: Entry)
    requires Inv(s) && s.size < s.cfg.maxPending && entry.sequence == s.sequence + 1
    ensures Inv(Append(s, entry))
  {
    AppendCore(s, entry);
    ClientsKept(s, Append(s, entry));
  }

  lemma AdmitInv(s: State, record: int, hasRelease: bool)
    requires Inv(s) && Refusal(s).None?
    ensures Inv(Admit(s, record, hasRelease))
  {
    hide Inv;
    var entry := Entry(s.sequence + 1, record, hasRelease);
    AppendInv(s, entry);
    EnsureWorkerInv(Append(s, entry));
  }

  lemma StartFlushInv(s: State, mode: Mode)
    requires Inv(s)
    ensures Inv(StartFlush(s, mode))
  {
    var t := StartFlush(s, mode);
    TargetsOfNewClient(s, mode);
    forall i | 0 <= i < |t.clients| ensures ClientInv(t, t.clients[i]) {
      if i < |s.clients| { ClientKept(s, t, s.clients[i]); }
    }
  }

  // ---------------------------------------------------------------- flush steps

  lemma AcquireLockInv(s: State, c: nat)
    requires Inv(s) && s.lock.None? && c < |s.clients| && s.clients[c].phase.AwaitingLock?
    ensures Inv(AcquireLock(s, c))
  {
    var t := AcquireLock(s, c);
    ClientKept(s, t, s.clients[c]);
    OneClientChanged(s, t, c);
  }

  // A call that stops waiting: returning is only constrained for a normal return.
  lemma ReturnWithError(s: State, c: nat, error: Option<Error>)
    requires Core(s) && c < |s.clients| && !s.clients[c].HoldsLock()
    requires ClientsInv(s)
    requires error.None? && s.clients[c].mode.Waits? && s.cfg.strict ==>
               ScannedInv(s, s.clients[c], |s.clients[c].targets|, None)
    ensures Inv(ReturnWith(s, c, error))
  {
    var t := ReturnWith(s, c, error);
    OneClientChanged(s, t, c);
  }

  // Dropping the lock while its holder moves to a phase that does not hold it.
  lemma ReleaseLock(s: State, c: nat, phase: Phase)
    requires Inv(s) && c < |s.clients| && s.clients[c].HoldsLock()
    requires !phase.Holding? && !phase.Writing?
    requires PhaseInv(s, s.clients[c].(phase := phase))
    ensures Inv(SetPhase(s.(lock := None), c, phase))
  {
    var t := SetPhase(s.(lock := None), c, phase);
    ClientKept(s, t, s.clients[c].(phase := phase));
    OneClientChanged(s, t, c);
  }

  // Raising the running round's boundary changes nothing the invariant speaks of.
  lemma RaiseBoundaryInv(s: State, id: nat, boundary: nat)
    requires Inv(s)
    ensures Inv(s.(worker := RaiseBoundary(s.worker, id, boundary)))
  {
    ClientsKept(s, s.(worker := RaiseBoundary(s.worker, id, boundary)));
  }

  lemma BackgroundInv(s: State, background: Option<Error>)
    requires Inv(s)
    ensures Inv(s.(background := background))
  {
    ClientsKept(s, s.(background := background));
  }

  lemma ReturnInv(s: State, c: nat, error: Option<Error>, background: Option<Error>)
    requires Inv(s) && c < |s.clients| && s.clients[c].HoldsLock() && !s.clients[c].mode.Waits?
    ensures Inv(SetPhase(s.(lock := None), c, Returned(error)).(background := background))
  {
    ReleaseLock(s, c, Returned(error));
    hide Inv;
    BackgroundInv(SetPhase(s.(lock := None), c, Returned(error)), background);
  }

  lemma FinishPersistInv(s: State, c: nat, error: Option<Error>)
    requires Inv(s) && c < |s.clients| && s.clients[c].HoldsLock()
    requires error.None? && s.cfg.strict ==> s.clients[c].boundary <= |s.logs.durable|
    ensures Inv(FinishPersist(s, c, error))
  {
    var t := FinishPersist(s, c, error);
    match s.clients[c].mode
    case Waits => ReleaseLock(s, c, Waiting(0, error));
    case InLiveCallback =>
      hide Inv;
      ReturnInv(s, c, error, t.background);
    case Background =>
      hide Inv;
      ReturnInv(s, c, error, t.background);
    case Reentrant(id) =>
      hide Inv;
      var u := s.(worker := RaiseBoundary(s.worker, id, s.clients[c].boundary));
      RaiseBoundaryInv(s, id, s.clients[c].boundary);
      ReturnInv(u, c, error, t.background);
      assert t == SetPhase(u.(lock := None), c, Returned(error)).(background := t.background);
  }

  lemma WritingInv(s: State, c: nat)
    requires Inv(s) && c < |s.clients| && s.clients[c].phase.Holding?
    requires s.pending != [] && s.pending[0].sequence <= s.clients[c].boundary
    ensures Inv(SetPhase(s, c, Writing(CollectBatch(s.pending, s.clients[c].boundary, s.cfg.batchSize))))
  {
    BatchIsPrefix(s.pending, s.clients[c].boundary, s.cfg.batchSize);
    OneClientChanged(s, SetPhase(s, c, Writing(CollectBatch(s.pending, s.clients[c].boundary, s.cfg.batchSize))), c);
  }

  lemma LoopHeadInv(s: State, c: nat)
    requires Inv(s) && c < |s.clients| && s.clients[c].phase.Holding?
    ensures Inv(LoopHead(s, c))
  {
    if s.pending == [] || s.pending[0].sequence > s.clients[c].boundary {
      assert s.pending != [] ==> s.pending[0] == s.logs.admitted[|s.logs.durable|];
      FinishPersistInv(s, c, None);
    } else if s.fatal.Some? {
      FinishPersistInv(s, c, s.fatal);
    } else {
      WritingInv(s, c);
    }
  }

  // The state change of a returned write, before the wake event is set.
  function Committed(s: State, c: nat): State
    requires c < |s.clients| && s.clients[c].phase.Writing?
    requires |s.clients[c].phase.batch| <= |s.pending|
  {
    var batch := s.clients[c].phase.batch;
    SetPhase(s, c, Holding).(
      pending := s.pending[|batch|..],
      committed := s.committed + batch,
      committedFlags := s.committedFlags + Flags(batch),
      logs := s.logs.(durable := s.logs.durable + batch),
      writes := s.writes + 1)
  }

  // The written batch is exactly what the blind pops remove.
  lemma CommittedLogs(s: State, c: nat)
    requires Core(s) && c < |s.clients| && s.clients[c].phase.Writing? && ClientInv(s, s.clients[c])
    ensures LogsInv(Committed(s, c)) && SizeInv(Committed(s, c))
  {
  }

  lemma CommittedFlags(s: State, c: nat)
    requires Core(s) && c < |s.clients| && s.clients[c].phase.Writing? && ClientInv(s, s.clients[c])
    ensures FlagsInv(Committed(s, c))
  {
    var batch := s.clients[c].phase.batch;
    var d := |s.logs.durable|;
    assert forall i :: 0 <= i < |batch| ==> batch[i] == s.logs.admitted[d + i];
    forall q ensures q in Flags(batch) <==> d + 1 <= q <= d + |batch| {
      if d + 1 <= q <= d + |batch| {
        assert batch[q - d - 1].sequence == q;
      }
    }
  }

  lemma WrittenCore(s: State, c: nat)
    requires Core(s) && c < |s.clients| && s.clients[c].phase.Writing? && ClientInv(s, s.clients[c])
    ensures Core(WriteReturned(s, c))
  {
    CommittedLogs(s, c);
    CommittedFlags(s, c);
    assert WriteReturned(s, c) == SetWake(Committed(s, c));
    hide LogsInv, SizeInv, FlagsInv, ClientInv;
  }

  lemma WriteReturnedInv(s: State, c: nat)
    requires Inv(s) && c < |s.clients| && s.clients[c].phase.Writing?
    ensures |s.clients[c].phase.batch| <= |s.pending|
    ensures Inv(WriteReturned(s, c))
  {
    assert ClientInv(s, s.clients[c]);
    WrittenCore(s, c);
    var t := WriteReturned(s, c);
    assert Core(t) && Extends(s, t) && ClientInv(t, t.clients[c]);
    hide Core, ClientInv;
    OneClientChanged(s, t, c);
  }

  lemma WriteCounted(s: State, fatal: Option<Error>)
    requires Inv(s)
    ensures Inv(s.(writes := s.writes + 1, fatal := fatal))
  {
    ClientsKept(s, s.(writes := s.writes + 1, fatal := fatal));
  }

  lemma WriteRaisedInv(s: State, c: nat, configurationError: bool)
    requires Inv(s) && c < |s.clients| && s.clients[c].phase.Writing?
    ensures Inv(WriteRaised(s, c, configurationError))
  {
    hide Inv;
    var fatal := if configurationError then Some(FatalWrite(s.writes)) else s.fatal;
    var t := s.(writes := s.writes + 1, fatal := fatal);
    WriteCounted(s, fatal);
    FinishPersistInv(t, c, if configurationError then fatal
                           else if s.cfg.strict then Some(WriteFailed(s.writes)) else None);
  }

  lemma CancelClientInv(s: State, c: nat)
    requires Inv(s) && c < |s.clients|
    ensures Inv(CancelClient(s, c))
  {
    var t := CancelClient(s, c);
    assert Core(t);
    hide Core;
    ClientKept(s, t, s.clients[c].(phase := Returned(Some(CallerCancelled))));
    OneClientChanged(s, t, c);
  }

  // Commits happen in order: nothing after an uncommitted target is committed either.
  lemma {:induction false} ScanRestUncommitted(s: State, client: Client, i: nat, error: Option<Error>)
    requires i <= |client.targets|
    requires forall k :: i <= k < |client.targets| ==> client.targets[k] !in s.committedFlags
    ensures WaitScan(s, client.targets, i, error) == Done(error)
    decreases |client.targets| - i
  {
    if i < |client.targets| { ScanRestUncommitted(s, client, i + 1, error); }
  }

  // What a scan that ends has established.
  ghost predicate ScanDone(s: State, client: Client, error: Option<Error>) {
    && (forall q :: q in client.targets ==> q in s.releasedFlags || q !in s.committedFlags)
    && (error.None? ==> forall q :: q in client.targets ==> q !in s.errors)
    && (error.None? && s.cfg.strict ==> ScannedInv(s, client, |client.targets|, None))
  }

  lemma {:induction false} WaitScanStops(s: State, client: Client, i: nat, error: Option<Error>)
    requires Core(s) && TargetsInv(s, client) && ScannedInv(s, client, i, error)
    ensures match WaitScan(s, client.targets, i, error)
            case Stuck(j, e) =>
              && ScannedInv(s, client, j, e)
              && j < |client.targets|
              && client.targets[j] in s.committedFlags && client.targets[j] !in s.releasedFlags
            case Done(e) => ScanDone(s, client, e)
    decreases |client.targets| - i
  {
    if i == |client.targets| {
    } else if client.targets[i] !in s.committedFlags {
      var q := client.targets[i];
      assert q in client.targets && q > |s.logs.durable|;
      forall k | i <= k < |client.targets| ensures client.targets[k] !in s.committedFlags {
        assert client.targets[i] <= client.targets[k];
      }
      ScanRestUncommitted(s, client, i, error);
    } else if client.targets[i] in s.releasedFlags {
      WaitScanStops(s, client, i + 1, CombineErrors(error, s.errors, client.targets[i]));
    }
  }

  lemma WaitStepInv(s: State, c: nat)
    requires Inv(s) && c < |s.clients| && s.clients[c].phase.Waiting?
    ensures s.clients[c].phase.index <= |s.clients[c].targets|
    ensures Inv(WaitStep(s, c))
  {
    var client := s.clients[c];
    assert ClientInv(s, client);
    WaitScanStops(s, client, client.phase.index, client.phase.error);
    match WaitScan(s, client.targets, client.phase.index, client.phase.error)
    case Done(error) => ReturnWithError(s, c, error);
    case Stuck(i, error) => ParkInv(s, c, i, error);
  }

  lemma ParkLiveInv(u: State, c: nat, i: nat, error: Option<Error>)
    requires Inv(u) && c < |u.clients| && u.clients[c].phase.Waiting? && Alive(u.worker)
    requires ScannedInv(u, u.clients[c], i, error) && i < |u.clients[c].targets|
    requires u.clients[c].targets[i] in u.committedFlags && u.clients[c].targets[i] !in u.releasedFlags
    ensures Inv(SetPhase(u, c, ParkedOn(i, error)))
  {
    OneClientChanged(u, SetPhase(u, c, ParkedOn(i, error)), c);
  }

  lemma ParkInv(s: State, c: nat, i: nat, error: Option<Error>)
    requires Inv(s) && c < |s.clients| && s.clients[c].phase.Waiting?
    requires ScannedInv(s, s.clients[c], i, error) && i < |s.clients[c].targets|
    requires s.clients[c].targets[i] in s.committedFlags && s.clients[c].targets[i] !in s.releasedFlags
    ensures Inv(EnsureWorker(SetPhase(s, c, ParkedOn(i, error))))
  {
    EnsureWorkerInv(s);
    hide Inv;
    var u := EnsureWorker(s);
    ParkLiveInv(u, c, i, error);
    assert EnsureWorker(SetPhase(s, c, ParkedOn(i, error))) == SetPhase(u, c, ParkedOn(i, error));
  }

  // ---------------------------------------------------------------- worker steps

  lemma WorkerResumeInv(s: State)
    requires Inv(s) && (s.worker.Starting? || s.worker.Woken?)
    ensures Inv(WorkerResume(s))
  {
    ClientsKept(s, WorkerResume(s));
  }

  // The head of `committed` becomes the entry being delivered.
  function TakeCommitted(s: State): State
    requires s.worker.Draining? && s.committed != []
  {
    s.(committed := s.committed[1..], logs := s.logs.(started := s.logs.started + [s.committed[0]]),
       worker := Delivering(s.worker.token, s.committed[0]))
  }

  lemma TakeCommittedInv(s: State)
    requires Inv(s) && s.worker.Draining? && s.committed != []
    ensures Inv(TakeCommitted(s))
  {
  }

  lemma FinishEntryCore(s: State, error: Option<Error>)
    requires Core(s) && s.worker.Delivering?
    ensures Core(FinishEntry(s, s.worker.token, s.worker.entry, error))
  {
  }

  lemma FinishEntryInv(s: State, error: Option<Error>)
    requires Inv(s) && s.worker.Delivering?
    ensures Inv(FinishEntry(s, s.worker.token, s.worker.entry, error))
  {
    FinishEntryCore(s, error);
    ClientsWoken(s, FinishEntry(s, s.worker.token, s.worker.entry, error));
  }

  lemma DrainStepInv(s: State)
    requires Inv(s) && s.worker.Draining?
    ensures Inv(DrainStep(s))
  {
    if s.committed != [] && s.committed[0].sequence <= s.worker.token.boundary {
      TakeCommittedInv(s);
      if !s.committed[0].hasRelease {
        FinishEntryInv(TakeCommitted(s), None);
        assert DrainStep(s) == FinishEntry(TakeCommitted(s), s.worker.token, s.committed[0], None);
      }
    } else {
      ClientsKept(s, DrainStep(s));
    }
  }

  lemma NotifyDeathInv(s: State)
    requires Inv(s) && s.deathNotices > 0
    ensures Inv(NotifyDeath(s))
  {
    ClientsWoken(s, NotifyDeath(s));
  }

  // ---------------------------------------------------------------- every step

  // Cancelling or losing the worker, and closing, change nothing that a client relies on.
  lemma LifecycleInv(s: State, a: Action)
    requires Inv(s) && Enabled(s, a)
    requires a.DoCancelWorker? || a.DoWorkerDies? || a.DoBeginClose? || a.DoClose?
    ensures Inv(Apply(s, a))
  {
    ClientsKept(s, Apply(s, a));
  }

  lemma StepKeepsInv(s: State, a: Action)
    requires Inv(s) && Enabled(s, a)
    ensures Inv(Apply(s, a))
  {
    hide Inv, Admit, StartFlush, EnsureWorker, AcquireLock, LoopHead, WriteReturned, WriteRaised, CancelClient,
         WaitStep, WorkerResume, DrainStep, FinishEntry, NotifyDeath, WorkerDies, Refusal;
    match a
    case DoAdmit(record, hasRelease) => AdmitInv(s, record, hasRelease);
    case DoTakeBackground => BackgroundInv(s, None);
    case DoStartWorker => EnsureWorkerInv(s);
    case DoStartFlush(mode) => StartFlushInv(s, mode);
    case DoAcquireLock(c) => AcquireLockInv(s, c);
    case DoLoopHead(c) => LoopHeadInv(s, c);
    case DoWriteReturned(c) => WriteReturnedInv(s, c);
    case DoWriteRaised(c, configurationError) => WriteRaisedInv(s, c, configurationError);
    case DoCancelClient(c) => CancelClientInv(s, c);
    case DoCancelTimer => BackgroundInv(s, TimerCancelled(s).background);
    case DoWait(c) => WaitStepInv(s, c);
    case DoWorkerResume => WorkerResumeInv(s);
    case DoDrain => DrainStepInv(s);
    case DoReleaseEnds(outcome) => FinishEntryInv(s, ReleaseError(outcome, s.worker.entry.sequence));
    case DoNotifyDeath => NotifyDeathInv(s);
    case _ => LifecycleInv(s, a);
  }
}
