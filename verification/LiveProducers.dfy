/**
 Producers blocked by the `block` policy. They wait on the buffer's condition; every stretch that
 takes events out of the queue notifies all of them, and each then tests the queue again.
 */
module LiveProducers {
  import opened Wrappers
  import opened LiveProtocol
  import LiveTheorems

  // The arguments of an `add` that waits.
  datatype Call = Call(key: int, event: int, channels: seq<int>)

  // `blocked` waits on the condition; `notified` was woken and has not tested the queue again yet.
  datatype Buffer = Buffer(live: State, blocked: seq<Call>, notified: seq<Call>)

  datatype Move =
    | Live(action: Action)           // any step of the buffer, a new `add` included
    | Retry(i: nat)                  // a notified producer tests the queue again
    | GiveUp(i: nat)                 // a blocked producer is cancelled
    | GiveUpNotified(i: nat)         // a notified producer is cancelled

  function Start(cfg: Config): Buffer {
    Buffer(Init(cfg), [], [])
  }

  // The stretches that call `notify_all`.
  predicate Notifies(s: State, a: Action) {
    match a
    case DoAdd(_, _, _, _) => |s.order| >= s.cfg.maxPending && s.cfg.overflow.DropOldest?
    case DoReentrantDispatch(key, wantsRelease) => !NothingToDispatch(s, key, wantsRelease) && RoomForOperation(s, key)
    case DoContinue => s.deferred == [] && s.drainer.Draining? && s.drainer.request.Some?
    case _ => false
  }

  function Remove(calls: seq<Call>, i: nat): seq<Call>
    requires i < |calls|
  {
    calls[..i] + calls[i + 1..]
  }

  function Waiter(s: State, a: Action): seq<Call> {
    match a
    case DoAdd(key, event, channels, reentrant) =>
      if AddDecision(s, reentrant) == Waiting then [Call(key, event, channels)] else []
    case _ => []
  }

  function Perform(b: Buffer, a: Action): Buffer
    requires b.live.cfg.Valid() && LiveProtocol.Enabled(b.live, a)
  {
    var waiter := Waiter(b.live, a);
    var live := LiveProtocol.Apply(b.live, a);
    if Notifies(b.live, a) then Buffer(live, waiter, b.notified + b.blocked)
    else Buffer(live, b.blocked + waiter, b.notified)
  }

  function Again(call: Call): Action {
    DoAdd(call.key, call.event, call.channels, false)
  }

  predicate Possible(b: Buffer, m: Move) {
    match m
    case Live(a) => LiveProtocol.Enabled(b.live, a)
    case Retry(i) => i < |b.notified|
    case GiveUp(i) => i < |b.blocked|
    case GiveUpNotified(i) => i < |b.notified|
  }

  function Next(b: Buffer, m: Move): Buffer
    requires b.live.cfg.Valid() && Possible(b, m)
  {
    match m
    case Live(a) => Perform(b, a)
    case Retry(i) => Perform(b.(notified := Remove(b.notified, i)), Again(b.notified[i]))
    case GiveUp(i) => b.(blocked := Remove(b.blocked, i))
    case GiveUpNotified(i) => b.(notified := Remove(b.notified, i))
  }

  // ---------------------------------------------------------------- runs

  ghost predicate IsRun(cfg: Config, states: seq<Buffer>, moves: seq<Move>) {
    && cfg.Valid()
    && |states| == |moves| + 1
    && states[0] == Start(cfg)
    && (forall i :: 0 <= i < |moves| ==>
          && states[i].live.cfg.Valid()
          && Possible(states[i], moves[i])
          && states[i + 1] == Next(states[i], moves[i]))
  }

  // What the buffer does in a move, if it does anything.
  function Visible(b: Buffer, m: Move): seq<Action>
    requires Possible(b, m)
  {
    match m
    case Live(a) => [a]
    case Retry(i) => [Again(b.notified[i])]
    case _ => []
  }

  /**
   The buffer's part of a run with waiting producers is a run of the buffer alone, in which a retry
   is an ordinary `add`. So everything `LiveTheorems` proves holds here too.
   */
  lemma {:induction false} ProjectsToLive(cfg: Config, states: seq<Buffer>, moves: seq<Move>, n: nat)
    returns (live: seq<State>, actions: seq<Action>)
    requires IsRun(cfg, states, moves) && n < |states|
    ensures LiveTheorems.IsRun(cfg, live, actions) && live[|actions|] == states[n].live
  {
    if n == 0 {
      live, actions := [Init(cfg)], [];
    } else {
      live, actions := ProjectsToLive(cfg, states, moves, n - 1);
      var seen := Visible(states[n - 1], moves[n - 1]);
      if seen != [] {
        LiveTheorems.ExtendRun(cfg, live, actions, seen[0]);
        live, actions := live + [LiveProtocol.Apply(live[|actions|], seen[0])], actions + seen;
      }
    }
  }

  // ---------------------------------------------------------------- no missed wake-up

  // Whoever still sleeps was blocked by a queue that has been full ever since.
  ghost predicate SleepersSeeFull(b: Buffer) {
    && (b.blocked != [] ==> b.live.cfg.overflow.Block? && |b.live.order| >= b.live.cfg.maxPending)
    && (b.notified != [] ==> b.live.cfg.overflow.Block?)
  }

  // A stretch that does not notify takes nothing out of the queue.
  lemma QuietKeepsQueue(s: State, a: Action)
    requires s.cfg.Valid() && LiveProtocol.Enabled(s, a)
    ensures LiveProtocol.Apply(s, a).cfg == s.cfg
    ensures !Notifies(s, a) ==> |LiveProtocol.Apply(s, a).order| >= |s.order|
    ensures AddDecision(s, false) == Waiting ==> s.cfg.overflow.Block? && |s.order| >= s.cfg.maxPending
  {
    hide Matching, Remaining, Owed;
  }

  /**
   Who wakes the waiting producers: an `add` exactly when it drops the head of the queue, a
   re-entrant dispatch exactly when it queues an operation, and an ordinary one at its own drain.
   */
  lemma WakersMean(s: State, a: Action)
    requires s.cfg.Valid() && LiveProtocol.Enabled(s, a)
    ensures var t := LiveProtocol.Apply(s, a);
            match a
            case DoAdd(_, _, _, _) =>
              if Notifies(s, a) then s.order != [] && s.order[1..] <= t.order && |t.order| <= |s.order|
              else s.order <= t.order
            case DoReentrantDispatch(_, _) => Notifies(s, a) <==> |t.deferred| > |s.deferred|
            case DoContinue =>
              Notifies(s, a) <==> s.drainer.request.Some? && t.drainer.Draining? && t.drainer.request.None?
            case _ => !Notifies(s, a) && t.order == s.order
  {
    hide Matching, Remaining, Owed;
  }

  lemma PerformKeepsSleepers(b: Buffer, a: Action)
    requires b.live.cfg.Valid() && LiveProtocol.Enabled(b.live, a) && SleepersSeeFull(b)
    ensures SleepersSeeFull(Perform(b, a))
  {
    QuietKeepsQueue(b.live, a);
    if Waiter(b.live, a) != [] {
      assert LiveProtocol.Apply(b.live, a).order == b.live.order;
    }
    hide LiveProtocol.Apply, Notifies;
  }

  lemma {:induction false} RunKeepsSleepers(cfg: Config, states: seq<Buffer>, moves: seq<Move>, n: nat)
    requires IsRun(cfg, states, moves) && n < |states|
    ensures SleepersSeeFull(states[n]) && states[n].live.cfg == cfg
  {
    if n > 0 {
      RunKeepsSleepers(cfg, states, moves, n - 1);
      var b := states[n - 1];
      match moves[n - 1]
      case Live(a) =>
        QuietKeepsQueue(b.live, a);
        PerformKeepsSleepers(b, a);
      case Retry(i) =>
        QuietKeepsQueue(b.live, Again(b.notified[i]));
        PerformKeepsSleepers(b.(notified := Remove(b.notified, i)), Again(b.notified[i]));
      case _ =>
    }
  }

  /**
   No blocked producer misses its wake-up: whenever the queue has room, every producer that waits
   has been notified, and the next of them to test the queue has its event accepted.
   */
  lemma RoomWakesEveryone(cfg: Config, states: seq<Buffer>, moves: seq<Move>, n: nat)
    requires IsRun(cfg, states, moves) && n < |states| && |states[n].live.order| < cfg.maxPending
    ensures states[n].blocked == []
    ensures states[n].live.cfg.Valid()
    ensures forall i :: 0 <= i < |states[n].notified| ==>
              var call, t := states[n].notified[i], Next(states[n], Retry(i));
              && t.notified == Remove(states[n].notified, i) && t.blocked == []
              && t.live.order == states[n].live.order
                                 + [Item(|states[n].live.logs.accepted|, call.key, call.event, call.channels)]
  {
    RunKeepsSleepers(cfg, states, moves, n);
  }

  // ---------------------------------------------------------------- nobody is forgotten

  function Sleepers(b: Buffer): multiset<Call> {
    multiset(b.blocked) + multiset(b.notified)
  }

  lemma RemoveTakes(calls: seq<Call>, i: nat)
    requires i < |calls|
    ensures multiset(calls) == multiset(Remove(calls, i)) + multiset{calls[i]}
  {
    assert calls == calls[..i] + [calls[i]] + calls[i + 1..];
  }

  lemma PerformKeepsWaiting(b: Buffer, a: Action)
    requires b.live.cfg.Valid() && LiveProtocol.Enabled(b.live, a)
    ensures Sleepers(Perform(b, a)) == Sleepers(b) + multiset(Waiter(b.live, a))
  {
    hide LiveProtocol.Apply, Notifies, Waiter;
  }

  lemma RetryTakesOrKeeps(b: Buffer, i: nat)
    requires b.live.cfg.Valid() && i < |b.notified| && b.live.cfg.overflow.Block?
    ensures var call, t := b.notified[i], Next(b, Retry(i));
            if |b.live.order| >= b.live.cfg.maxPending then Sleepers(t) == Sleepers(b) && t.live == b.live
            else
              && Sleepers(b) == Sleepers(t) + multiset{call}
              && t.live.logs.accepted == b.live.logs.accepted
                                         + [Item(|b.live.logs.accepted|, call.key, call.event, call.channels)]
  {
    var call := b.notified[i];
    assert Again(call).key == call.key;
    RemoveTakes(b.notified, i);
    PerformKeepsWaiting(b.(notified := Remove(b.notified, i)), Again(call));
    assert Waiter(b.live, Again(call)) == if |b.live.order| >= b.live.cfg.maxPending then [call] else [];
    hide Sleepers, Remove, Notifies, Waiter;
  }

  /**
   A waiting producer leaves only by having its own event accepted or by being cancelled; every
   other move keeps it waiting, and only a new `add` joins.
   */
  lemma WaitersAreKept(cfg: Config, states: seq<Buffer>, moves: seq<Move>, n: nat)
    requires IsRun(cfg, states, moves) && n < |moves|
    ensures var b, t := states[n], states[n + 1];
            match moves[n]
            case Live(a) => Sleepers(t) == Sleepers(b) + multiset(Waiter(b.live, a))
            case Retry(i) =>
              var call := b.notified[i];
              if |b.live.order| >= cfg.maxPending then Sleepers(t) == Sleepers(b) && t.live == b.live
              else
                && Sleepers(b) == Sleepers(t) + multiset{call}
                && t.live.logs.accepted == b.live.logs.accepted
                                           + [Item(|b.live.logs.accepted|, call.key, call.event, call.channels)]
            case GiveUp(i) => Sleepers(b) == Sleepers(t) + multiset{b.blocked[i]} && t.live == b.live
            case GiveUpNotified(i) => Sleepers(b) == Sleepers(t) + multiset{b.notified[i]} && t.live == b.live
  {
    RunKeepsSleepers(cfg, states, moves, n);
    var b := states[n];
    match moves[n]
    case Live(a) => PerformKeepsWaiting(b, a);
    case Retry(i) => RetryTakesOrKeeps(b, i);
    case GiveUp(i) => RemoveTakes(b.blocked, i);
    case GiveUpNotified(i) => RemoveTakes(b.notified, i);
  }
}
