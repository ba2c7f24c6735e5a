# A verification model of litestar-queues

`litestar-queues` is a task queue with durable records, live event streaming and recurring
schedules. This project models its five hardest parts in Dafny and proves what they are for.

* **Commit, then release** (`HistoryProtocol`, `HistoryInvariant`, `HistoryTheorems`,
  `HistoryLiveness`, `HistoryOutcomes`, `HistorySteps`, `HistoryBuffer`). The event history buffer admits records, persists them in batches under a write
  lock, and runs live callbacks only after their batch was written. Code between two awaits is
  atomic under asyncio, so the protocol is a state machine over such stretches; three logs record
  what was admitted, durable and started. Failed writes, cancelled callers, cancelled and restarted
  workers, re-entrant flushes and the timer all interleave freely. The class `HistoryBuffer` holds
  the object's own fields, and each of its methods is tied to a step of the machine.
* **Live delivery** (`LiveProtocol`, `LiveInvariant`, `LiveTheorems`, `LiveFlush`,
  `LiveProducers`, `LiveBuffer`). A global queue
  with a per-key index, four overflow policies, a drain lock, and a bounded queue of deliveries
  requested by callbacks of a delivery that is still running. `Chunking` and `ChannelsSink` model
  what the sink then does with a batch: a greedy splitter, proved optimal, under grouping by
  channel tuple.
* **Schedules** (`Calendar`, `CronField`, `CronGrammar`, `CronMeaning`,
  `CronSchedule`, `CronExpression`). The cron field parser, and the
  day-by-day search proved equal to a minute-by-minute scan over real Gregorian arithmetic. The day
  rule is the one of the crontab utility, INPUT FILES section of IEEE Std 1003.1.
* **Fenced attempts and identities** (`RetryDelay`, `Attempts`, `TaskBackend`, `Identity`,
  `IdentityService`). One record raced for by workers, stale recovery and shutdown; one key raced
  for by concurrent "forever" enqueues. The backend is its documented step contract, the service a
  client of it.
* **Selection and folds** (`ClaimMany`, `EventLog`, `Retention`, `Summaries`, with `Ordering` and
  `Filtering`). Loops with budgets that refine simple declarative specifications.

Where a protocol runs, the pattern is the same: a value-level state with step functions, an
invariant kept by every step, theorems about whole runs, and a class whose methods, loops included,
are proved to take those steps.

## Findings

* Month and weekday names are offered by the parser's own error text, but `JUL` and `WED` contain
  the letters `L` and `W`, which the same check rejects; `CronField.UsableNames` shows these are the
  only two (`src/litestar_queues/task.py:1173-1193`).
* The bound on attempts counts interruptions from the record's metadata. A caller that enqueues with
  an `interruptions` entry above `max_interruptions` gets more attempts than
  1 + max_retries + max_interruptions, and only such a caller does: `Attempts.PlainBoundHolds`. The
  bound that always holds, and is always reached, has the larger of the two numbers
  (`Attempts.AttemptsAreBounded`, `Attempts.BoundIsReached`;
  `src/litestar_queues/backends/base.py:65-88`).
* The service's retry delay counts interruptions, the backend's schedule does not.
  `RetryDelay.DelaysAgree` says for exactly which records the two delays are equal
  (`src/litestar_queues/service.py:1929-1938`, `src/litestar_queues/backends/base.py:91-101`).
* `drop_oldest` drops the head of the queue before the re-entrancy check, also when that check then
  refuses the new event, so an event is lost without one being taken. The states in which this
  happens are a full queue met by a re-entrant caller, where one event fills a batch and something is
  deferred (`LiveTheorems.RefusedAddChanges`); such a state is reachable exactly when the batch size
  is at most `max_pending` (`LiveTheorems.LossIsReachable`;
  `src/litestar_queues/events/buffer.py:105-126`).
* The deferred-delivery size never exceeds `max_pending` itself: the reserved slot replaces one that
  was counted, and the pair of the last deferred drain and the main drain is one stretch, because
  the condition lock is never held across an await.

## Model

| member | source | states |
|---|---|---|
| `HistoryInvariant.StepKeepsInv` | src/litestar_queues/events/_history_buffer.py:106-286 | Every atomic step (admission, flush start, lock, batch write returning or raising, cancellation of a caller or of the worker, worker rounds, callback end, worker death, close) keeps the protocol invariant |
| `HistoryTheorems.RunKeepsInv` | src/litestar_queues/events/_history_buffer.py:77-286 | The invariant holds in every state of every run from the empty buffer, whatever the interleaving |
| `HistoryTheorems.CommitThenRelease` | src/litestar_queues/events/_history_buffer.py:225-286 | In every reachable state: started releases are a prefix of the durable entries, these of the admitted ones, numbered 1, 2, 3...; size is pending + committed + active, finished + size is the sequence, and size stays within max_pending; released flags are exactly 1..finished |
| `HistoryTheorems.LogsOnlyGrow` | src/litestar_queues/events/_history_buffer.py:246-281 | Admissions, durable writes and started releases are histories that later steps only extend: nothing is written, released or admitted a second time in its place |
| `HistoryTheorems.ReleasesStartInOrder` | src/litestar_queues/events/_history_buffer.py:260-265 | A step starts at most one release, and it is the next durable entry in admission order |
| `HistoryTheorems.FlushTargets` | src/litestar_queues/events/_history_buffer.py:193-195 | A flush that begins now watches exactly the entries that are admitted and not yet finished |
| `HistoryTheorems.CallsAreFixed` | src/litestar_queues/events/_history_buffer.py:193-211 | Boundary, targets and mode of a call stay those of its beginning, across all later steps |
| `HistoryTheorems.StrictFlushContract` | src/litestar_queues/events/_history_buffer.py:121-142 | In strict mode a flush or barrier enqueue that returned normally, outside callbacks and timer, has left every entry up to its boundary durable and released; its unfinished ones without error |
| `HistoryTheorems.WaitingCallerReturns` | src/litestar_queues/events/_history_buffer.py:199-223 | An ordinary caller returns normally only by completing the scan of its targets with no error |
| `HistoryTheorems.FlushReturnContract` | src/litestar_queues/events/_history_buffer.py:193-251 | In both modes, when such a call returns normally every entry up to its boundary is released or retained in pending, and no target was released with an error |
| `HistoryTheorems.AtRestNobodyWaits` | src/litestar_queues/events/_history_buffer.py:106-119 | When the worker side cannot move, no caller is parked on it and a parked worker has nothing committed; if the worker is gone, the next start sets the wake event again |
| `HistoryTheorems.WorkerProgress` | src/litestar_queues/events/_history_buffer.py:253-286 | Each step of the worker strictly lowers a well-founded measure in every reachable state, so the worker cannot run for ever on its own |
| `HistoryTheorems.WorkerNeverStuck` | src/litestar_queues/events/_history_buffer.py:253-286 | As long as the worker side is not at rest, one of its steps is enabled |
| `HistoryTheorems.EveryWaiterIsWoken` | src/litestar_queues/events/_history_buffer.py:212-223 | From every reachable state the worker side comes to rest after finitely many of its own steps, and then no caller is parked: no wake-up is lost, also after cancellation and restart |
| `HistoryLiveness.WorkLowers` | src/litestar_queues/events/_history_buffer.py:253-286 | Each worker step releases a due entry or lowers the number of steps left to it |
| `HistoryLiveness.OthersDoNotRaise` | src/litestar_queues/events/_history_buffer.py:106-251 | No producer, flush, write or cancelled caller raises that number |
| `HistoryLiveness.ReleasedInTime` | src/litestar_queues/events/_history_buffer.py:193-286 | Under any interleaving that does not cancel the worker, a durable entry is released, with nobody parked on it, within 10 * max_pending + 5 worker steps, and until then a worker step is always possible |
| `HistoryTheorems.FatalFreezesHistory` | src/litestar_queues/events/_history_buffer.py:227-241 | After a fatal write error nothing is admitted and nothing is written any more, in any continuation |
| `HistoryTheorems.BackgroundErrorIsRaised` | src/litestar_queues/events/_history_buffer.py:188-211 | While the buffer accepts events, a stored background error is neither overwritten nor lost: it goes only by being raised, to a caller that asks or to one whose own flush met it |
| `HistoryOutcomes.ErrorsTellOutcomes` | src/litestar_queues/events/_history_buffer.py:263-276 | In every run an entry has an error exactly when its live callback raised or was cancelled before, and the error tells which |
| `HistoryOutcomes.FailureIsStored` | src/litestar_queues/events/_history_buffer.py:266-276 | A failing callback becomes the background error unless one is stored already |
| `HistoryOutcomes.FailureReachesFlush` | src/litestar_queues/events/_history_buffer.py:199-223 | A waiting call never returns normally when the callback of one of its targets failed before |
| `HistoryOutcomes.WorkerAfterCallback` | src/litestar_queues/events/_history_buffer.py:266-281 | The worker goes on after a callback that raised and ends with a cancelled one; the slot is freed either way |
| `HistoryOutcomes.LastCancellationWins` | src/litestar_queues/events/_history_buffer.py:215-223 | The wait returns the last cancellation among its targets, if there is one |
| `HistoryOutcomes.FirstErrorStays` | src/litestar_queues/events/_history_buffer.py:215-223 | else the error it came with |
| `HistoryOutcomes.FirstFailureReported` | src/litestar_queues/events/_history_buffer.py:215-223 | else the error of the first target that failed |
| `HistoryOutcomes.QuietCallPersists` | src/litestar_queues/events/_history_buffer.py:225-251 | In both modes a call none of whose writes raised, and that was not cancelled, leaves its persist loop only with every entry up to its boundary durable, or after a fatal error |
| `HistoryOutcomes.WriteErrorSurfaces` | src/litestar_queues/events/_history_buffer.py:237-245 | A raised write keeps every entry pending and is fatal, raised or retained quietly, by the kind of error and the mode |
| `HistoryOutcomes.AdmissionNeeds` | src/litestar_queues/events/_history_buffer.py:121-142 | An entry is admitted exactly when no error waits, the buffer accepts and it has a free slot, and is refused with the first of these that fails |
| `HistoryOutcomes.AdmitAppends` | src/litestar_queues/events/_history_buffer.py:134-140 | An admitted entry is appended with its record and release under the next sequence number, and a worker is alive |
| `HistoryOutcomes.ClosingAdmitsNothing` | src/litestar_queues/events/_history_buffer.py:152-186 | Once the buffer is closing, no later step admits anything |
| `HistoryOutcomes.ConfigurationErrorIsFatal` | src/litestar_queues/events/_history_buffer.py:239-241 | After a configuration error of a write every admission is refused and nothing more is written |
| `HistoryOutcomes.ReentrantFlushWidens` | src/litestar_queues/events/_history_buffer.py:196-204 | A flush made from inside a release callback makes its round go on at least to the boundary of the flush |
| `HistorySteps.RoundsHaveOwnTokens` | src/litestar_queues/events/_history_buffer.py:253-259 | Every round of the worker has a token of its own in any run, begins bounded by the last admitted sequence with the wake event cleared, and has its boundary moved only by a flush made from inside it, to that flush's larger boundary |
| `HistorySteps.BackgroundErrorsOriginate` | src/litestar_queues/events/_history_buffer.py:266-322 | A background error is stored exactly by a failed callback, a timer cancelled while the buffer accepts, or a timer flush that ended with an error, and never replaces a stored one |
| `HistorySteps.CancellationMeans` | src/litestar_queues/events/_history_buffer.py:225-236 | A cancelled call raises its cancellation, gives up the write lock if it held it and leaves entries and worker alone |
| `HistorySteps.NoticesCountDeaths` | src/litestar_queues/events/_history_buffer.py:106-119 | A done-callback is due for each worker that ended and for no other |
| `HistoryInvariant.WaitScanStops` | src/litestar_queues/events/_history_buffer.py:212-223 | What the scan of the targets has established where it stops: all passed committed targets are released, without error if none is carried |
| `HistoryInvariant.BatchIsPrefix` | src/litestar_queues/events/_history_buffer.py:230-234 | The batch collected below the boundary is a prefix of the deque, so popping as many entries as the batch has removes exactly the batch, although producers append during the write |
| `HistoryBuffer.HistoryBuffer.constructor` | src/litestar_queues/events/_history_buffer.py:77-97 | A new buffer is in the initial state of the protocol |
| `HistoryBuffer.HistoryBuffer.StartReleaseWorker` | src/litestar_queues/events/_history_buffer.py:106-111 | Starts a worker only when none is alive, and sets the wake event when something is committed |
| `HistoryBuffer.HistoryBuffer.RaiseBackgroundError` | src/litestar_queues/events/_history_buffer.py:188-191 | Hands out the stored background error once |
| `HistoryBuffer.HistoryBuffer.Enqueue` | src/litestar_queues/events/_history_buffer.py:121-142 | Refuses in the order of the checks (background error, fatal error, not accepting, full) without admitting; otherwise admits under the next sequence number and decides whether to flush |
| `HistoryBuffer.HistoryBuffer.BeginFlush` | src/litestar_queues/events/_history_buffer.py:193-195 | Registers a call with the outstanding entries up to the boundary as its targets |
| `HistoryBuffer.HistoryBuffer.CollectTargets` | src/litestar_queues/events/_history_buffer.py:194-195 | The loop over active, committed and pending entries selects exactly the sequences up to the boundary, in order |
| `HistoryBuffer.HistoryBuffer.TakeLock` | src/litestar_queues/events/_history_buffer.py:226 | One caller at a time holds the write lock |
| `HistoryBuffer.HistoryBuffer.LeavePersist` | src/litestar_queues/events/_history_buffer.py:199-211 | What each kind of caller does when its persist loop ends: wait, store the error, widen the worker's boundary, or raise |
| `HistoryBuffer.HistoryBuffer.NextBatch` | src/litestar_queues/events/_history_buffer.py:230-234 | The batch loop collects the entries of the specification: up to the boundary and the batch size |
| `HistoryBuffer.HistoryBuffer.PersistHead` | src/litestar_queues/events/_history_buffer.py:227-236 | The head of the persist loop stops, fails with the fatal error, or begins the next write |
| `HistoryBuffer.HistoryBuffer.PopWritten` | src/litestar_queues/events/_history_buffer.py:246-249 | The blind popleft loop moves exactly the written batch from pending to committed |
| `HistoryBuffer.HistoryBuffer.CommitBatch` | src/litestar_queues/events/_history_buffer.py:246-251 | A returned write commits its batch and sets the wake event; the invariant guarantees that the batch is still at the head |
| `HistoryBuffer.HistoryBuffer.FailWrite` | src/litestar_queues/events/_history_buffer.py:237-245 | A raised write: fatal on a configuration error, raised in strict mode, otherwise retained |
| `HistoryBuffer.HistoryBuffer.WaitForReleases` | src/litestar_queues/events/_history_buffer.py:212-223 | One stretch of the wait: scans targets, parks on the first unreleased one after making sure of a worker, or returns with the combined error |
| `HistoryBuffer.HistoryBuffer.ResumeWorker` | src/litestar_queues/events/_history_buffer.py:254-257 | The worker parks, or clears the wake event and begins a round bounded by the current sequence |
| `HistoryBuffer.HistoryBuffer.DrainOne` | src/litestar_queues/events/_history_buffer.py:260-286 | One turn of the release loop: take the head within the boundary, or leave the round and re-arm the wake event |
| `HistoryBuffer.HistoryBuffer.CallbackEnds` | src/litestar_queues/events/_history_buffer.py:263-281 | A callback that returned, raised or was cancelled marks its entry released, records its error, frees its slot and wakes the waiters |
| `HistoryBuffer.HistoryBuffer.ReleaseFinished` | src/litestar_queues/events/_history_buffer.py:113-119 | The done-callback of a dead worker wakes every caller parked on it |
| `HistoryBuffer.HistoryBuffer.CancelTimer` | src/litestar_queues/events/_history_buffer.py:307-310 | A timer cancelled while the buffer accepts events stores its cancellation as the background error, unless one is stored already |
| `LiveInvariant.StepKeepsInv` | src/litestar_queues/events/buffer.py:100-220 | Every stretch of add, dispatch, deferred drain and delivery keeps queue bound, budget, order, release and ownership invariants |
| `LiveTheorems.RunKeepsInv` | src/litestar_queues/events/buffer.py:78-220 | The invariant holds in every state of every run |
| `LiveTheorems.KeyOrder` | src/litestar_queues/events/buffer.py:100-142 | Per key, what was handed to the sink followed by what is deferred and queued is what was accepted less what was dropped, in acceptance order |
| `LiveTheorems.Conservation` | src/litestar_queues/events/buffer.py:161-220 | Every accepted event is dropped or stands at exactly one place among handed over, deferred and queued; nothing else stands there |
| `LiveTheorems.DeferredBudget` | src/litestar_queues/events/buffer.py:161-220 | The queue never exceeds max_pending; _deferred_size is the sum of the queued operation sizes plus one slot while a batch in flight owes its release, and never exceeds max_pending |
| `LiveTheorems.ReleasesOnceInOrder` | src/litestar_queues/events/buffer.py:201-220 | Releases begun, owed by the batch in flight and queued are, in this order, those handed over, numbered without gap: each begins at most once and a cancelled publish neither loses nor repeats one |
| `LiveTheorems.OwedIsFixed` | src/litestar_queues/events/buffer.py:136-142 | What a release has to wait for is settled when it is handed over |
| `LiveTheorems.ReleaseAfterItsEvents` | src/litestar_queues/events/buffer.py:136-142 | An immediate release of a key begins only after every event of the key accepted before it and not dropped was handed to the sink |
| `LiveFlush.FlushHandsOver` | src/litestar_queues/events/buffer.py:161-191 | A dispatch that took the drain lock and gave it back uncancelled has handed to the sink every event accepted before it that its key selects, all of them without a key, but for those dropped |
| `LiveFlush.MainDrainHandsOver` | src/litestar_queues/events/buffer.py:182-185 | The main drain hands over everything its request selects and leaves the other keys queued |
| `LiveFlush.ReentrantAnswers` | src/litestar_queues/events/buffer.py:164-176 | A re-entrant dispatch does nothing without work, is refused exactly when its events or its one slot exceed the budget, and otherwise has everything its key selects handed over or deferred, in one operation charged to the budget |
| `LiveFlush.RoomAccepts` | src/litestar_queues/events/buffer.py:100-130 | A queue with room takes an ordinary event at its end, and asks for a flush exactly when a batch is full |
| `LiveFlush.FullQueueAnswers` | src/litestar_queues/events/buffer.py:104-129 | What a full queue answers under each policy, and what it changes |
| `LiveTheorems.ReentrantAddCanFlush` | src/litestar_queues/events/buffer.py:120-130 | The re-entrancy check of add is what the flush it triggers needs: an accepted re-entrant event that fills the batch can always be deferred |
| `LiveTheorems.RefusedAddChanges` | src/litestar_queues/events/buffer.py:100-130 | In every reachable state an add that does not accept leaves the buffer alone, except that a full queue under drop_oldest has lost its head; that happens exactly when a re-entrant caller meets a full queue in which one event fills a batch and something is deferred |
| `LiveTheorems.LossIsReachable` | src/litestar_queues/events/buffer.py:100-142 | A configuration has such a reachable state if and only if it drops the oldest and its batch size is at most max_pending |
| `LiveTheorems.UnlockedWithNothingDeferred` | src/litestar_queues/events/buffer.py:177-199 | In every run in which no delivery was cancelled, whenever the drain lock is free nothing is deferred and the deferred size is zero |
| `LiveProducers.ProjectsToLive` | src/litestar_queues/events/buffer.py:100-142 | The buffer's part of every run with blocked producers is a run of the buffer, so its theorems hold there too |
| `LiveProducers.RoomWakesEveryone` | src/litestar_queues/events/buffer.py:104-119 | No blocked producer misses its wake-up: whenever the queue has room every waiting producer has been notified, and the next to test the queue has its own event accepted |
| `LiveProducers.WakersMean` | src/litestar_queues/events/buffer.py:161-189 | An add notifies the waiting producers exactly when it drops the head of the queue, a re-entrant dispatch exactly when it queues an operation, an ordinary dispatch at its own drain, and nothing else does |
| `LiveProducers.WaitersAreKept` | src/litestar_queues/events/buffer.py:104-129 | A waiting producer leaves only by having its event accepted or by being cancelled; a retry that finds the queue full changes nothing |
| `LiveBuffer.AppendAgrees` | src/litestar_queues/events/buffer.py:293-295 | Appending keeps every bucket of the index equal to its key's part of the queue, with no empty bucket |
| `LiveBuffer.RemoveAgrees` | src/litestar_queues/events/buffer.py:297-323 | Removing from the bucket by equality removes the very event popped from the head of the queue, even when equal events are queued |
| `LiveBuffer.DrainAgrees` | src/litestar_queues/events/buffer.py:303-314 | A keyed drain of the index is a linear filter of the queue |
| `LiveBuffer.LiveEventBuffer.constructor` | src/litestar_queues/events/buffer.py:78-98 | A new buffer is empty, unlocked and agrees with its index |
| `LiveBuffer.LiveEventBuffer.Append` | src/litestar_queues/events/buffer.py:293-295 | Appends to queue and bucket together |
| `LiveBuffer.LiveEventBuffer.RemoveFromIndex` | src/litestar_queues/events/buffer.py:316-323 | The bucket loses its first equal element and disappears when empty |
| `LiveBuffer.LiveEventBuffer.DropOldest` | src/litestar_queues/events/buffer.py:297-301 | Drops the head of the queue and keeps the index in agreement |
| `LiveBuffer.LiveEventBuffer.Drain` | src/litestar_queues/events/buffer.py:303-314 | Takes exactly the events of the key, or all, and leaves the others in order |
| `LiveBuffer.LiveEventBuffer.AddOnce` | src/litestar_queues/events/buffer.py:100-130 | The four overflow policies and the re-entrancy check: outcome and whole new state of one pass of add |
| `LiveBuffer.LiveEventBuffer.DispatchReentrant` | src/litestar_queues/events/buffer.py:164-176 | A dispatch from inside a delivery queues its work within the budget, does nothing, or reports that the queue is full and changes nothing |
| `LiveBuffer.LiveEventBuffer.TakeDrainLock` | src/litestar_queues/events/buffer.py:177-180 | An ordinary dispatch becomes the owner of the drain lock |
| `LiveBuffer.LiveEventBuffer.RunOn` | src/litestar_queues/events/buffer.py:181-199 | The owner delivers deferred operations first, then its own drain, and frees the lock only when none is left |
| `LiveBuffer.LiveEventBuffer.AfterPublish` | src/litestar_queues/events/buffer.py:207-220 | After a publish that returned or raised, the reserved slot is given back and the release begins |
| `LiveBuffer.LiveEventBuffer.AfterCancelledPublish` | src/litestar_queues/events/buffer.py:208-211 | After a cancelled publish the release goes back to the front, keeping its slot |
| `LiveBuffer.LiveEventBuffer.AfterRelease` | src/litestar_queues/events/buffer.py:214-220 | A finished release continues the dispatch; a cancelled one frees the lock |
| `Chunking.SplitEventBatchBySize` | src/litestar_queues/events/chunking.py:20-55 | Chunks concatenate to the items in order and are batches with the event's other data, non-empty, each with its own item count and within the limit; with monotone sizes no contiguous fitting split has fewer parts, and failure happens exactly when a single item does not fit; small or foreign events come back unchanged |
| `Chunking.SplitMeans` | src/litestar_queues/events/chunking.py:39-51 | What counts as a split, said of complete events with their own count |
| `Chunking.PayloadSizeIsMonotone` | src/litestar_queues/events/chunking.py:15-18 | The size the optimality result assumes is that of a JSON payload: an envelope that does not shrink as the count grows, and the items, makes every longer run at least as large |
| `Chunking.AheadStep` | src/litestar_queues/events/chunking.py:39-51 | The greedy run stays ahead of every other split: extending or cutting never costs a part |
| `Chunking.Shorten` | src/litestar_queues/events/chunking.py:39-51 | Any split of one more item is a split of the items before it with its last run cut by one |
| `Chunking.Finish` | src/litestar_queues/events/chunking.py:53-55 | Closing the open run completes a split, and a shortest one |
| `ChannelsSink.GroupByChannels` | src/litestar_queues/events/channels_sink.py:94-106 | All events are split before anything is sent; groups are keyed by channel tuple, in order of first occurrence |
| `ChannelsSink.PublishMany` | src/litestar_queues/events/channels_sink.py:94-114 | One publication per distinct channel tuple with all its payloads in batch order, or none at all when some event cannot be split |
| `ChannelsSink.ChannelsDistinct` | src/litestar_queues/events/channels_sink.py:94-100 | The groups are exactly the channel tuples of the batch, each once |
| `ChannelsSink.PayloadsKept` | src/litestar_queues/events/channels_sink.py:94-106 | Every payload of every event is in the publication of its own tuple |
| `ChannelsSink.PayloadsInOrder` | src/litestar_queues/events/channels_sink.py:94-106 | The payloads of a tuple are those of its events in batch order |
| `ChannelsSink.ChannelsInOrder` | src/litestar_queues/events/channels_sink.py:94-100 | Tuples come in the order in which the batch first mentions them |
| `ChannelsSink.PayloadsOfEvent` | src/litestar_queues/events/channels_sink.py:102-106 | Without a limit an event is its own payload; with one its payloads are its split, each within the limit |
| `Calendar.OrdinalOfDate` | src/litestar_queues/task.py:270-289 | The date reached by counting days has that count as its proleptic Gregorian ordinal |
| `Calendar.DateOfOrdinal` | src/litestar_queues/task.py:270-289 | Every valid date is reached, so dates and day counts correspond one to one |
| `Calendar.MonthDayRecurs` | src/litestar_queues/task.py:62-64 | Any 8*366 consecutive days contain every valid month and day, 29 February included |
| `Calendar.WeekdayRecurs` | src/litestar_queues/task.py:62-64 | They also contain every weekday of every month |
| `Calendar.SevenYearsAreTooFew` | src/litestar_queues/task.py:62-64 | A window of 7*366 days would miss 29 February across 1900 |
| `Calendar.FourCenturies` | src/litestar_queues/task.py:270-289 | Four centuries hold 97 leap days, in whole weeks |
| `Calendar.KnownDays` | src/litestar_queues/task.py:270-289 | Anchors: 1970-01-01 was a Thursday, 2000 had a 29 February and 1900 had not |
| `CronGrammar.FieldMeaning` | src/litestar_queues/task.py:1131-1170 | From the items a field text is written with: it is accepted exactly when every item is usable, and holds exactly every k-th value from a to b of some item, 7 being 0 on weekdays |
| `CronGrammar.EveryPartIsAnItem` | src/litestar_queues/task.py:1131-1156 | Every part that is not empty is written as such an item |
| `CronGrammar.EmptyPartRefused` | src/litestar_queues/task.py:1131-1135 | An empty part is refused wherever it stands |
| `CronGrammar.EveryKth` | src/litestar_queues/task.py:1137-1166 | A star with a step k holds every k-th value from the minimum |
| `CronGrammar.RangeWithStep` | src/litestar_queues/task.py:1137-1166 | A range with a step holds every k-th value of the range |
| `CronGrammar.FromWithStep` | src/litestar_queues/task.py:1154-1166 | A number with a step runs to the maximum |
| `CronGrammar.PlainRange` | src/litestar_queues/task.py:1150-1166 | A range holds every value in it |
| `CronGrammar.PlainNumber` | src/litestar_queues/task.py:1154-1166 | A number holds only itself |
| `CronGrammar.PlainName` | src/litestar_queues/task.py:1108-1112 | A table name, in any case, is its number |
| `CronGrammar.NameTables` | src/litestar_queues/task.py:238-253 | The tables count months from 1 and weekdays from Sunday, 0 |
| `CronGrammar.StarBounds` | src/litestar_queues/task.py:255-262 | The five fields range over 0-59, 0-23, 1-31, 1-12 and 0-6 |
| `CronGrammar.SyntaxCheck` | src/litestar_queues/task.py:1173-1193 | The syntax check refuses more than five fields, and any letter L or W and any number sign |
| `CronMeaning.ExpressionsAccepted` | src/litestar_queues/task.py:228-262 | From the pieces of its five fields: an expression parses exactly when no field holds a letter L or W or a number sign, question marks stand only for the day or the weekday and not for both, and every item is usable in its field |
| `CronMeaning.DayRule` | src/litestar_queues/task.py:1044-1049 | A day or weekday field that is a star or a question mark leaves the choice to the other; when both say something a date that either holds will do |
| `CronMeaning.MinuteMeaning` | src/litestar_queues/task.py:271-287 | The minutes the text denotes are those whose minute, hour and month some item of the field means, on a date that meets the day rule |
| `CronMeaning.EveryKthMinute` | src/litestar_queues/task.py:1137-1166 | A star with a step k for the minutes and stars elsewhere denote exactly the minutes of the hour divisible by k |
| `CronSchedule.WindowComplete` | src/litestar_queues/task.py:270-277 | If any date at all satisfies the day and month fields, one does inside the search window |
| `CronSchedule.FirstSlot` | src/litestar_queues/task.py:275-283 | The ordered hour and minute loops find the least configured time of day not before the candidate |
| `CronSchedule.GetNextRun` | src/litestar_queues/task.py:270-289 | For a parsed expression the result is the least whole minute strictly after the given instant that matches month, day rule, hour and minute; the search fails exactly when no calendar date matches |
| `CronField.SplitJoins` | src/litestar_queues/task.py:1131 | Splitting at commas loses nothing and leaves no comma in a part |
| `CronField.AddRange` | src/litestar_queues/task.py:1166 | Adds exactly the stepped values from start to end |
| `CronField.ExpandParts` | src/litestar_queues/task.py:1131-1166 | The union of the parts, non-empty, or a failure exactly when some part is not a range of the field |
| `CronField.ExpandCronField` | src/litestar_queues/task.py:1115-1170 | Exactly the denoted values, never empty and in range, with weekday 7 read as 0 except under a literal question mark; failure exactly for ill-formed fields |
| `CronField.ParseCron` | src/litestar_queues/task.py:213-268 | An expression parses exactly when it has five supported, well-formed fields and not two question marks; the five sets are those the fields denote, and a day field restricts exactly when it is neither a star nor a question mark |
| `CronExpression.NextCronRun` | src/litestar_queues/task.py:213-289 | From the fields to the next run: the least whole minute strictly after the given instant that the text denotes, either day field sufficing when both restrict; refused exactly for ill-formed expressions, and failing exactly when the text denotes no date |
| `CronField.UnrestrictedIsFull` | src/litestar_queues/task.py:1126-1150 | A star or question mark denotes the whole range of its field |
| `CronField.JulyAndWednesdayNeverParse` | src/litestar_queues/task.py:1173-1193 | Every field that contains JUL or WED is rejected as unsupported syntax, against the error text, which offers month and day names |
| `CronField.UsableNames` | src/litestar_queues/task.py:1108-1112 | A month or weekday name by itself is rejected exactly when it is JUL or WED; all others parse to their number |
| `RetryDelay.PowerMonotone` | src/litestar_queues/task.py:97-100 | Powers of a multiplier of at least one do not decrease, negative exponents included |
| `RetryDelay.PowersDiffer` | src/litestar_queues/task.py:97-100 | Powers of a multiplier above one increase strictly |
| `RetryDelay.DelayGrows` | src/litestar_queues/task.py:73-104 | The delay never shrinks with the attempt number, starts at the initial delay and respects the cap |
| `RetryDelay.DelayMultiplies` | src/litestar_queues/task.py:97-100 | Before the cap the delay starts at the initial delay and is multiplied by the multiplier from one attempt to the next |
| `RetryDelay.InterruptionsRead` | src/litestar_queues/backends/base.py:65-76 | A recorded count is cut to a whole number; a negative, missing or unreadable one counts as none |
| `RetryDelay.DelaysAgree` | src/litestar_queues/service.py:1929-1938 | Through the persisted metadata the service reads back delay_for of the retry count and the backend that of the attempts consumed; the two agree exactly when no interruption is recorded, the multiplier is one, the initial delay is zero, or the backend's delay has reached the cap |
| `RetryDelay.ServiceNeverWaitsLess` | src/litestar_queues/service.py:1929-1938 | With interruptions recorded the service never waits less than the backend would |
| `Attempts.StepKeepsInv` | src/litestar_queues/backends/base.py:426-496 | Claims, assignments, settles, stale recovery, cancellation and expiry keep the generation, snapshot and budget invariants |
| `Attempts.EachGenerationOnce` | src/litestar_queues/backends/base.py:426-496 | Under every interleaving each retry generation is claimed at most once and ended at most once |
| `Attempts.SettleEndsOwnGeneration` | src/litestar_queues/service.py:839-908 | A settle that succeeds is the first to end the generation its worker claimed, and ends it by a terminal status or the next generation |
| `Attempts.SettleMeans` | src/litestar_queues/service.py:839-908 | A settle is taken exactly when the record still runs the claimed generation; success completes the record, a failure schedules, requeues or fails it by the budget, and an interruption below the limit requeues it without a worker, one interruption up |
| `Attempts.StepsMean` | src/litestar_queues/backends/memory/backend.py:402-418 | What claim, stale recovery, cancellation and expiry leave of a record in each status |
| `Attempts.SupersededSettleIsLost` | src/litestar_queues/service.py:987-1049 | Once its generation has ended, a worker's settle changes nothing and is reported as claim lost |
| `Attempts.AttemptsAreBounded` | src/litestar_queues/backends/base.py:65-88 | With an interruption limit a record is claimed at most 1 + max_retries + max(preset, max_interruptions) times, preset being what its enqueue metadata claims |
| `Attempts.BoundIsReached` | src/litestar_queues/service.py:776-820 | For every record, preset and limit some run makes exactly that many attempts |
| `Attempts.PlainBoundHolds` | src/litestar_queues/backends/base.py:65-88 | No run exceeds 1 + max_retries + max_interruptions attempts if and only if the interruptions preset in the metadata do not exceed the limit |
| `Attempts.TerminalIsFinal` | src/litestar_queues/backends/memory/backend.py:345-443 | A terminal record stays as it is, with no further claim, through every continuation of the run, unfenced cancellations included |
| `TaskBackend.Backend.AddRecord` | src/litestar_queues/backends/memory/backend.py:108-141 | A record under a new id joins the store at the end of its order and changes no other |
| `TaskBackend.ClaimIsAttemptStep` | src/litestar_queues/backends/memory/backend.py:250-272 | A successful claim and an expiry on claiming are each the corresponding step of the attempt protocol |
| `TaskBackend.Backend.ClaimTask` | src/litestar_queues/backends/memory/backend.py:250-272 | Claims a due record that holds no dispatch lease and meets the optional fences; an overdue one without execution reference expires instead; otherwise nothing changes |
| `TaskBackend.Backend.AssignWorker` | src/litestar_queues/backends/memory/backend.py:213-222 | Assigns a worker under the fence |
| `TaskBackend.Backend.CompleteTask` | src/litestar_queues/backends/memory/backend.py:345-363 | Stores the record as completed exactly under the fence, and touches no other record |
| `TaskBackend.Backend.FailTask` | src/litestar_queues/backends/memory/backend.py:365-400 | Fails or requeues under the fence, by attempts consumed, scheduled when the retry lies in the future; the heartbeat goes either way |
| `TaskBackend.Backend.InterruptTask` | src/litestar_queues/backends/memory/backend.py:420-443 | Requeues under fence and worker, raising retry count and interruptions together and clearing schedule, heartbeat and execution reference |
| `TaskBackend.SweptMeans` | src/litestar_queues/backends/memory/backend.py:508-517 | A sweep takes up running records with an old heartbeat or none, each once, as many as the limit allows; what it leaves is no staler than what it takes |
| `TaskBackend.StaleMeans` | src/litestar_queues/backends/memory/backend.py:943-950 | Stale is a running record whose heartbeat is missing or before the cutoff; older heartbeats come first, missing ones before all |
| `TaskBackend.RecoveredMeans` | src/litestar_queues/backends/memory/backend.py:519-541 | A stale record goes back to the queue at the time of its schedule, with its priority resolved, or fails for good |
| `TaskBackend.ReportMeans` | src/litestar_queues/backends/memory/backend.py:519-541 | The report lists exactly the swept records that went back, those that failed, and those whose handler is needed |
| `TaskBackend.Backend.RequeueStaleRunning` | src/litestar_queues/backends/memory/backend.py:503-542 | The loop recovers exactly the swept records, by retry schedule and priority policy, leaves every other record alone, and reports the requeued, the failed and those that need their handler |
| `TaskBackend.Service.SettleExecution` | src/litestar_queues/service.py:839-908 | A successful execution is stored as completed, a failed one retried or failed by the budget; claim lost is reported exactly when the record no longer runs the claimed generation |
| `TaskBackend.Service.InterruptTask` | src/litestar_queues/service.py:776-820 | At the interruption limit the interruption goes through the retry policy instead |
| `Identity.StepKeepsInv` | src/litestar_queues/service.py:449-492 | Every step of every concurrent enqueue, of ordinary tasks, completion, purge and administrative reset keeps the reservation invariant |
| `Identity.OneForeverRecordPerKey` | src/litestar_queues/service.py:449-492 | Without an administrative reset of a key at most one forever record is ever persisted under it, and it owns the reservation, through ambiguous failures and cross-policy collisions |
| `Identity.OnlyItsOwnerReleases` | src/litestar_queues/service.py:106-125 | Apart from administrative resets, which may also have come before, a reservation disappears only by its own owner's hand and never once the owner's record was persisted |
| `Identity.PersistedKeepsReservation` | src/litestar_queues/backends/base.py:791-832 | A persisted forever record that owns its reservation keeps it under every step but a reset of its key |
| `Identity.AnswersArePersisted` | src/litestar_queues/service.py:449-492 | In every reachable state a caller answered with its own id has its record persisted |
| `Identity.ClientStepsMean` | src/litestar_queues/service.py:449-492 | What each await of an enqueue does: lose, persist, collide, look up, give back |
| `Identity.EnqueueMeans` | src/litestar_queues/backends/memory/backend.py:108-139 | A key whose last record is terminal or gone takes a new record; an active one answers its record |
| `Identity.ReservationsMean` | src/litestar_queues/backends/memory/backend.py:830-864 | A free key is reserved, a reserved one answers its owner, and only a matching owner is deleted |
| `Identity.PurgeMeans` | src/litestar_queues/backends/memory/backend.py:784-801 | A purge frees the key of its record and unmaps no key that went to another |
| `Identity.ResetAllowsASecond` | src/litestar_queues/backends/base.py:815-832 | After a reset a second forever record can be persisted: the condition is needed |
| `IdentityService.Backend.ReserveIdentity` | src/litestar_queues/backends/memory/backend.py:830-843 | First caller wins; later callers get the owner |
| `IdentityService.Backend.ResetIdentity` | src/litestar_queues/backends/memory/backend.py:849-864 | Compare and delete |
| `IdentityService.Backend.EnqueueTask` | src/litestar_queues/backends/memory/backend.py:108-139 | Answers the active record under the key or stores the new one |
| `IdentityService.ReleaseFailedReservation` | src/litestar_queues/service.py:106-113 | Gives a reservation back only when the record is confirmed absent |
| `IdentityService.EnqueueForever` | src/litestar_queues/service.py:449-492 | One enqueue by itself: result, records and reservations in every combination of failures, collision and lost resets |
| `ClaimMany.Backend.ListPending` | src/litestar_queues/backends/memory/backend.py:224-239 | The first records of a queue in claiming order |
| `ClaimMany.Backend.ClaimTask` | src/litestar_queues/backends/memory/backend.py:241-248 | Takes the record out of the claimable ones, if it still is one |
| `ClaimMany.ClaimOne` | src/litestar_queues/backends/base.py:359-385 | One turn claims an allowed record; alone, the least allowed one, or nothing exactly when none is allowed |
| `ClaimMany.ClaimIsScanStep` | src/litestar_queues/backends/base.py:359-389 | Claiming the least allowed record is the first thing a scan of all records does |
| `ClaimMany.ScanTakesFirst` | src/litestar_queues/backends/base.py:359-389 | A scan takes its first allowed record and goes on with the rest under the reduced limits |
| `ClaimMany.ScanMeans` | src/litestar_queues/backends/base.py:359-389 | A scan takes records in the order of priority, queue time, creation time and id, and leaves one behind only for the total limit or the limit of its queue |
| `ClaimMany.ClaimMany` | src/litestar_queues/backends/base.py:342-400 | Alone, exactly what one scan of all claimable records in order takes under the total limit and the queue limits, so higher priorities and older records come first and a record is left behind only when the total limit went to records ahead of it or its queue's limit is used up; with other claimers, distinct claimable records within every limit |
| `Ordering.SortSorts` | src/litestar_queues/events/query.py:201-208 | Sorting yields an ordered permutation |
| `Ordering.SortedIsUnique` | src/litestar_queues/events/query.py:201-208 | With distinct keys there is one sorted arrangement |
| `Ordering.SortIgnoresInputOrder` | src/litestar_queues/events/query.py:201-208 | With distinct keys sorting does not depend on the order of the input |
| `EventLog.CleanupMeans` | src/litestar_queues/backends/memory/event_log.py:92-124 | A cleanup deletes the oldest doomed records, as many as the limit allows; every other record stays, and no survivor that was doomed is older than a deleted one |
| `EventLog.KeyLeqMeans` | src/litestar_queues/events/_log_records.py:71-73 | The stable order is time, then sequence number with a missing one as 0, then event id |
| `EventLog.MatchesMeans` | src/litestar_queues/events/query.py:194-198 | Every filter that is set must be met; without any, every record matches |
| `Retention.FirstMatch` | src/litestar_queues/events/query.py:194-198 | The position of the first rule whose filters the record meets, or the number of rules |
| `Retention.ExpiredMeans` | src/litestar_queues/maintenance.py:535-543 | A record is expired exactly when the first rule that selects it finds it strictly older than its age |
| `Retention.RuleOwns` | src/litestar_queues/maintenance.py:535-543 | The deletion of rule i looks for exactly the expired records whose first matching rule it is |
| `Retention.PassDeletesExpired` | src/litestar_queues/maintenance.py:521-546 | A pass deletes exactly min(limit, n) records, n counting those whose first matching rule finds them too old; records matching no rule are never deleted and the retained ones keep their order |
| `Retention.PassesConverge` | src/litestar_queues/maintenance.py:521-546 | With fixed cutoffs, passes stop changing the log exactly from pass n / limit rounded up on, and then exactly the retained records are left |
| `Retention.MemoryEventLog.CleanupEvents` | src/litestar_queues/backends/memory/event_log.py:92-124 | The in-place deletion is the specified one and reports its number |
| `Retention.ApplyRules` | src/litestar_queues/maintenance.py:535-545 | The loop over the rules stays on the pass from the log it started with, up to the end of the rules or of the budget |
| `Retention.RunEventRetentionRules` | src/litestar_queues/maintenance.py:521-546 | One call is one pass of the specification and returns min(limit, n) |
| `Summaries.AccumulateDescribes` | src/litestar_queues/events/query.py:244-268 | The accumulator of a stage tells count, total duration, least and greatest time, the latest record's sequence and message, and the worst level with ties to the latest |
| `Summaries.SummariesMean` | src/litestar_queues/events/query.py:230-284 | Every summary describes exactly the records of its stage in stable order; the stages are those that occur, each once, unnamed first and ascending |
| `Summaries.FaithfulMeans` | src/litestar_queues/events/query.py:244-268 | Said of the records: the summary counts those of its stage, its latest message is that of one no other is later than, its first time the least, and its worst level one that no other exceeds |
| `Summaries.LevelOrder` | src/litestar_queues/events/query.py:35-51 | Missing and empty levels rank lowest, unknown ones next, then debug, info, warning, error and critical |
| `Summaries.LowerFolds` | src/litestar_queues/events/query.py:39-51 | Levels are compared without regard to case |
| `Summaries.CountsAddUp` | src/litestar_queues/events/query.py:230-284 | The counts of all summaries add up to the number of records |
| `Summaries.InputOrderDoesNotMatter` | src/litestar_queues/events/query.py:201-208 | With distinct sort keys the summaries do not depend on the order of the records |
| `Summaries.TiesFollowInputOrder` | src/litestar_queues/events/query.py:262-263 | With equal sort keys they do: the condition is needed |
| `Summaries.SummarizeEventRecords` | src/litestar_queues/events/query.py:230-284 | The loop over the dictionary of accumulators computes the specified summaries |

## Left out

- CronExpression.NextCronRun: the time zone is a fixed offset; daylight-saving gaps, IANA data and the year limit of Python's `datetime` are not modelled.
- CronField.ParseCron: fields arrive already split at white space and stripped; `@` aliases and `@reboot` are not modelled, `int()` is a parameter, and upper-casing is ASCII.
- Attempts.TerminalIsFinal: cancellation of a running task carries no fence in the source, so only the finality of terminal records is claimed of it.
- Attempts.AttemptsAreBounded: the protocol leaves times out; claims and expiries may happen whenever the status and the fences allow, and `TaskBackend` adds due, expiry and heartbeat times.
- TaskBackend.Backend.CompleteTask: workers are given snapshots, as the backend contract has it; the in-memory backend hands out the live record object, and that aliasing is not modelled. Results, error texts, start and completion times are left out.
- TaskBackend.Backend.RequeueStaleRunning: the retry schedule and the priority policy are parameters; a policy that returns no integer, which raises in the source, is not modelled.
- Identity.StepKeepsInv: a record is not purged between its failed enqueue and the check that follows, and a failed enqueue has settled when it is checked.
- IdentityService.EnqueueForever: one enqueue without interleaving; the interleavings are those of `Identity`.
- ClaimMany.ClaimMany: the branch without explicit queues, where the page limit can hide eligible records, and records that become claimable during the call are not modelled.
- Summaries.SummarizeEventRecords: durations are real numbers, so rounding of floating-point sums is not modelled; stages and event ids are numbers in their string order, and the record's serial number stands for object identity.
- Retention.RunEventRetentionRules: the log is the in-memory one; the deletion statements of the storage drivers are not part of this model.
- RetryDelay.DelayGrows: real arithmetic without overflow; jitter and the wall clock are left out.
- Chunking.SplitEventBatchBySize: the JSON size estimate is a parameter, assumed monotone only where a clause says so.
- LiveBuffer.LiveEventBuffer.AddOnce: one pass of the loop; producers that wait are in `LiveProducers`, where any of those notified may run first.
- LiveTheorems.DeferredBudget: callbacks re-enter only while a delivery is in progress; callbacks carried elsewhere by `bind_release` enter like ordinary or re-entrant callers.
- HistoryBuffer.HistoryBuffer.Enqueue: deep copies, the retry deadline and the timer's clock are inputs (`retryDue`), and errors are told apart by cause and number.
- HistoryBuffer.HistoryBuffer.WaitForReleases: the progress event is modelled by waking the callers parked on it, not as a flag of its own.
- Scheduling of the flush timer and of `_wake`, `stop` and `_close` beyond their effect on admission, and the start and stop of the live buffer's interval loop.
- The maintenance run loop and pagination, which sequence and slice results of the operations modelled here without a rule of their own; statistics, heartbeat refresh and schedule repair, which no modelled property depends on; and external dispatch, whose outcome is decided by services outside the repository.
- Storage and broker drivers, HTTP routes, plugin wiring, observability, the command line and the documentation tools.
