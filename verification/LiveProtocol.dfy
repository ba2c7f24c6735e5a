/**
 Live event delivery as a state machine over the stretches of `LiveEventBuffer` between awaits.

 `order` is the queue, `deferred` holds deliveries requested by callbacks of a delivery that is
 still running, and at most one dispatch owns the drain lock. The condition lock is never held
 across an await, so `_drain_deferred`'s last test, the main drain and the start of its delivery
 are one stretch; a callback can only re-enter while a publish or a release is being awaited.
 */
module LiveProtocol {
  import opened Wrappers

  datatype Overflow = DropOldest | DropNewest | RaiseError | Block

  datatype Config = Config(maxPending: nat, batchSize: nat, overflow: Overflow) {
    predicate Valid() {
      0 < maxPending && 0 < batchSize
    }
  }

  // `id` is object identity: the position in the log of accepted events.
  datatype Item = Item(id: nat, key: int, event: int, channels: seq<int>)

  // A release callback, numbered in the order in which it was handed over.
  datatype Release = Release(id: nat, key: int)

  datatype Delivery = Delivery(items: seq<Item>, release: Option<Release>) {
    function Size(): nat {
      if |items| == 0 then 1 else |items|
    }
  }

  // What the owner of the drain lock is awaiting.
  datatype Flight = Publishing(operation: Delivery) | Releasing(release: Release)

  datatype Drainer =
    | Unlocked
    | Draining(request: Option<Request>, flight: Option<Flight>)   // `request` until the main drain

  // `_dispatch(key, release)` of a caller that is not re-entrant.
  datatype Request = Request(key: Option<int>, wantsRelease: bool)

  datatype Logs = Logs(
    accepted: seq<Item>,
    dropped: set<nat>,              // ids removed by `drop_oldest`
    handed: seq<Item>,              // every item passed to the sink, batch after batch
    released: seq<nat>,             // ids of the releases begun, in order
    issued: nat,                    // how many releases were handed over
    owed: map<nat, set<nat>>)       // per release: the accepted, undropped ids of its key by then

  datatype State = State(
    cfg: Config,
    order: seq<Item>,
    deferred: seq<Delivery>,
    deferredSize: int,
    drainer: Drainer,
    logs: Logs)

  function Init(cfg: Config): State {
    State(cfg, [], [], 0, Unlocked, Logs([], {}, [], [], 0, map[]))
  }

  // ---------------------------------------------------------------- queue pieces

  function OfKey(items: seq<Item>, key: int): seq<Item> {
    if items == [] then []
    else (if items[0].key == key then [items[0]] else []) + OfKey(items[1..], key)
  }

  function NotOfKey(items: seq<Item>, key: int): seq<Item> {
    if items == [] then []
    else (if items[0].key == key then [] else [items[0]]) + NotOfKey(items[1..], key)
  }

  function Matching(items: seq<Item>, key: Option<int>): seq<Item> {
    match key
    case None => items
    case Some(k) => OfKey(items, k)
  }

  function Remaining(items: seq<Item>, key: Option<int>): seq<Item> {
    match key
    case None => []
    case Some(k) => NotOfKey(items, k)
  }

  function ItemsOf(ops: seq<Delivery>): seq<Item> {
    if ops == [] then [] else ops[0].items + ItemsOf(ops[1..])
  }

  function SizeOf(ops: seq<Delivery>): nat {
    if ops == [] then 0 else ops[0].Size() + SizeOf(ops[1..])
  }

  function ReleasesOf(ops: seq<Delivery>): seq<nat> {
    if ops == [] then []
    else (if ops[0].release.Some? then [ops[0].release.value.id] else []) + ReleasesOf(ops[1..])
  }

  // ---------------------------------------------------------------- adding

  datatype AddOutcome = Accepted(shouldFlush: bool) | Dropped | Full | Waiting

  predicate InDelivery(s: State) {
    s.drainer.Draining? && s.drainer.flight.Some?
  }

  // What one pass of `add` through its condition decides.
  function AddDecision(s: State, reentrant: bool): AddOutcome {
    var full := |s.order| >= s.cfg.maxPending;
    if full && s.cfg.overflow.DropNewest? then Dropped
    else if full && s.cfg.overflow.RaiseError? then Full
    else if full && s.cfg.overflow.Block? then (if reentrant then Full else Waiting)
    else
      var length := if full then |s.order| - 1 else |s.order|;
      if reentrant && length + 1 >= s.cfg.batchSize && s.deferredSize + length + 1 > s.cfg.maxPending then Full
      else Accepted(length + 1 >= s.cfg.batchSize)
  }

  function DropHead(s: State): State
    requires s.order != []
  {
    s.(order := s.order[1..], logs := s.logs.(dropped := s.logs.dropped + {s.order[0].id}))
  }

  function AppendItem(s: State, key: int, event: int, channels: seq<int>): State {
    var item := Item(|s.logs.accepted|, key, event, channels);
    s.(order := s.order + [item], logs := s.logs.(accepted := s.logs.accepted + [item]))
  }

  // `drop_oldest` makes room before the re-entrancy check, even when that check then refuses.
  function MakeRoom(s: State): State
    requires s.cfg.Valid()
  {
    if |s.order| >= s.cfg.maxPending && s.cfg.overflow.DropOldest? then DropHead(s) else s
  }

  function Add(s: State, key: int, event: int, channels: seq<int>, reentrant: bool): State
    requires s.cfg.Valid()
  {
    if AddDecision(s, reentrant).Accepted? then AppendItem(MakeRoom(s), key, event, channels)
    else MakeRoom(s)
  }

  // ---------------------------------------------------------------- dispatching

  // The ids a release of `key` must wait for: accepted so far and not dropped.
  function Owed(s: State, key: int): set<nat> {
    set i | 0 <= i < |s.logs.accepted| && s.logs.accepted[i].key == key && i !in s.logs.dropped :: i
  }

  // Draining `key` into an operation; a wanted release gets the next number.
  function TakeOperation(s: State, key: Option<int>, wantsRelease: bool): (State, Delivery) {
    var items := Matching(s.order, key);
    var t := s.(order := Remaining(s.order, key));
    if wantsRelease && key.Some? then
      var release := Release(s.logs.issued, key.value);
      (t.(logs := s.logs.(issued := s.logs.issued + 1, owed := s.logs.owed[release.id := Owed(s, key.value)])),
       Delivery(items, Some(release)))
    else (t, Delivery(items, None))
  }

  // The queued-delivery budget test of a re-entrant dispatch.
  predicate RoomForOperation(s: State, key: Option<int>) {
    var count := |Matching(s.order, key)|;
    s.deferredSize + (if count == 0 then 1 else count) <= s.cfg.maxPending
  }

  predicate NothingToDispatch(s: State, key: Option<int>, wantsRelease: bool) {
    Matching(s.order, key) == [] && !wantsRelease
  }

  function ReentrantDispatch(s: State, key: Option<int>, wantsRelease: bool): State {
    if NothingToDispatch(s, key, wantsRelease) || !RoomForOperation(s, key) then s
    else
      var (t, op) := TakeOperation(s, key, wantsRelease);
      t.(deferred := t.deferred + [op], deferredSize := t.deferredSize + op.Size())
  }

  function Lock(s: State, request: Request): State {
    s.(drainer := Draining(Some(request), None))
  }

  // `_deliver` up to its first await; `request` is what the dispatch still has to drain.
  function Deliver(s: State, op: Delivery, request: Option<Request>): State {
    if op.items != [] then
      s.(deferredSize := s.deferredSize + (if op.release.Some? then 1 else 0),
         drainer := Draining(request, Some(Publishing(op))),
         logs := s.logs.(handed := s.logs.handed + op.items))
    else BeginRelease(s, op.release, request)
  }

  function BeginRelease(s: State, release: Option<Release>, request: Option<Request>): State {
    match release
    case Some(r) =>
      s.(drainer := Draining(request, Some(Releasing(r))),
         logs := s.logs.(released := s.logs.released + [r.id]))
    case None => s.(drainer := Draining(request, None))
  }

  // The dispatch runs on: next deferred operation, then its own drain, then the lock is freed.
  function Continue(s: State): State
    requires s.drainer.Draining? && s.drainer.flight.None?
  {
    if s.deferred != [] then
      Deliver(s.(deferred := s.deferred[1..], deferredSize := s.deferredSize - s.deferred[0].Size()),
              s.deferred[0], s.drainer.request)
    else
      match s.drainer.request
      case Some(request) =>
        var (t, op) := TakeOperation(s, request.key, request.wantsRelease);
        Deliver(t, op, None)
      case None => s.(drainer := Unlocked)
  }

  // The sink returned or raised: the accepted release is attempted either way.
  function PublishEnds(s: State): State
    requires s.drainer.Draining? && s.drainer.flight.Some? && s.drainer.flight.value.Publishing?
  {
    var op := s.drainer.flight.value.operation;
    BeginRelease(s.(deferredSize := s.deferredSize - (if op.release.Some? then 1 else 0)),
                 op.release, s.drainer.request)
  }

  // The dispatch was cancelled while publishing: the release goes back to the front of the queue.
  function PublishCancelled(s: State): State
    requires s.drainer.Draining? && s.drainer.flight.Some? && s.drainer.flight.value.Publishing?
  {
    var op := s.drainer.flight.value.operation;
    s.(drainer := Unlocked,
       deferred := if op.release.Some? then [Delivery([], op.release)] + s.deferred else s.deferred)
  }

  function ReleaseEnds(s: State, cancelled: bool): State
    requires s.drainer.Draining?
  {
    s.(drainer := if cancelled then Unlocked else Draining(s.drainer.request, None))
  }

  // ---------------------------------------------------------------- the transition system

  datatype Action =
    | DoAdd(key: int, event: int, channels: seq<int>, reentrant: bool)
    | DoReentrantDispatch(filter: Option<int>, wantsRelease: bool)
    | DoLock(request: Request)
    | DoContinue
    | DoPublishEnds
    | DoPublishCancelled
    | DoReleaseEnds(cancelled: bool)

  predicate Enabled(s: State, a: Action) {
    match a
    case DoAdd(_, _, _, reentrant) => reentrant ==> InDelivery(s)
    case DoReentrantDispatch(key, wantsRelease) => InDelivery(s) && (wantsRelease ==> key.Some?)
    case DoLock(request) => s.drainer.Unlocked? && (request.wantsRelease ==> request.key.Some?)
    case DoContinue => s.drainer.Draining? && s.drainer.flight.None?
    case DoPublishEnds => InDelivery(s) && s.drainer.flight.value.Publishing?
    case DoPublishCancelled => InDelivery(s) && s.drainer.flight.value.Publishing?
    case DoReleaseEnds(_) => InDelivery(s) && s.drainer.flight.value.Releasing?
  }

  function Apply(s: State, a: Action): State
    requires s.cfg.Valid() && Enabled(s, a)
  {
    match a
    case DoAdd(key, event, channels, reentrant) => Add(s, key, event, channels, reentrant)
    case DoReentrantDispatch(key, wantsRelease) => ReentrantDispatch(s, key, wantsRelease)
    case DoLock(request) => Lock(s, request)
    case DoContinue => Continue(s)
    case DoPublishEnds => PublishEnds(s)
    case DoPublishCancelled => PublishCancelled(s)
    case DoReleaseEnds(cancelled) => ReleaseEnds(s, cancelled)
  }
}
