/** What a flush hands over, and what `add` and a re-entrant dispatch answer, in every reachable state. */
module LiveFlush {
  import opened Wrappers
  import opened LiveProtocol
  import opened LiveInvariant
  import opened LiveTheorems

  predicate Selected(item: Item, key: Option<int>) {
    key.None? || item.key == key.value
  }

  // Every event that `key` selects among the first `n` accepted ones is dropped or in `items`.
  ghost predicate AllIn(items: seq<Item>, s: State, n: nat, key: Option<int>) {
    forall i :: 0 <= i < n && i < |s.logs.accepted| && Selected(s.logs.accepted[i], key) && i !in s.logs.dropped ==>
                  s.logs.accepted[i] in items
  }

  // After the drain, what the key selects stands ahead of the queue.
  lemma DrainedStandsAhead(s: State, key: Option<int>, ahead: seq<Item>)
    requires Inv(s) && Pipe(s) == ahead + s.order
    ensures AllIn(ahead + Matching(s.order, key), s, |s.logs.accepted|, key)
  {
    var n := |s.logs.accepted|;
    forall i | 0 <= i < n && Selected(s.logs.accepted[i], key) && i !in s.logs.dropped
      ensures s.logs.accepted[i] in ahead + Matching(s.order, key)
    {
      var x := s.logs.accepted[i];
      PipeMembers(s, x);
      if key.Some? { OfKeyMember(s.order, key.value, x); }
    }
  }

  lemma PipeOf(s: State)
    ensures Pipe(s) == s.logs.handed + ItemsOf(s.deferred) + s.order
  {
  }

  // The step that makes the main drain hands over everything the request selects.
  lemma MainDrainHandsOver(s: State, request: Request)
    requires Inv(s) && s.drainer == Draining(Some(request), None) && s.deferred == []
    ensures var t := Continue(s);
            && AllIn(t.logs.handed, t, |s.logs.accepted|, request.key)
            && t.logs.accepted == s.logs.accepted && t.logs.dropped == s.logs.dropped
            && t.order == Remaining(s.order, request.key)
            && (t.drainer.Draining? && t.drainer.request.None?)
  {
    PipeOf(s);
    assert s.logs.handed + [] + s.order == s.logs.handed + s.order;
    DrainedStandsAhead(s, request.key, s.logs.handed);
    hide Inv, Owed, Pipe;
    if Matching(s.order, request.key) == [] {
      assert s.logs.handed + Matching(s.order, request.key) == s.logs.handed;
    }
  }

  lemma StepKeepsHanded(s: State, a: Action, n: nat, key: Option<int>)
    requires s.cfg.Valid() && Enabled(s, a) && n <= |s.logs.accepted| && AllIn(s.logs.handed, s, n, key)
    ensures n <= |Apply(s, a).logs.accepted| && AllIn(Apply(s, a).logs.handed, Apply(s, a), n, key)
  {
    StepLogs(s, a);
    hide Apply, Enabled;
  }

  // Between its lock and its unlock a dispatch owes its main drain, or has handed over what it drains.
  ghost predicate Served(s: State, n: nat, request: Request) {
    && n <= |s.logs.accepted|
    && (s.drainer == Draining(Some(request), None)
        || (s.drainer.Draining? && s.drainer.request == Some(request) && s.drainer.flight.Some?)
        || AllIn(s.logs.handed, s, n, request.key))
  }

  lemma StepKeepsServed(s: State, a: Action, n: nat, request: Request)
    requires Inv(s) && Enabled(s, a) && s.drainer.Draining? && Served(s, n, request) && !Cancels(a)
    ensures Served(Apply(s, a), n, request)
  {
    StepLogs(s, a);
    if AllIn(s.logs.handed, s, n, request.key) {
      StepKeepsHanded(s, a, n, request.key);
    } else if a == DoContinue && s.deferred == [] {
      MainDrainHandsOver(s, request);
    } else {
      hide Inv, AllIn, Owed, OfKey, NotOfKey, ItemsOf, SizeOf, ReleasesOf, Matching, Remaining;
    }
  }

  /**
   A dispatch that took the lock in step `m` and gave it back by step `n`, without being cancelled,
   has handed over every event accepted before it that its key selects (every event when it has no
   key), but for those dropped meanwhile.
   */
  lemma FlushHandsOver(cfg: Config, states: seq<State>, actions: seq<Action>, m: nat, n: nat, request: Request)
    requires IsRun(cfg, states, actions) && m < n < |states| && actions[m] == DoLock(request)
    requires states[n].drainer.Unlocked?
    requires forall i :: m < i < n ==> states[i].drainer.Draining? && !Cancels(actions[i])
    ensures AllIn(states[n].logs.handed, states[n], |states[m].logs.accepted|, request.key)
  {
    StillServed(cfg, states, actions, m, n, request);
  }

  lemma {:induction false} StillServed(cfg: Config, states: seq<State>, actions: seq<Action>, m: nat, n: nat,
                                       request: Request)
    requires IsRun(cfg, states, actions) && m < n < |states| && actions[m] == DoLock(request)
    requires forall i :: m < i < n ==> states[i].drainer.Draining? && !Cancels(actions[i])
    ensures Served(states[n], |states[m].logs.accepted|, request)
  {
    if n == m + 1 {
    } else {
      StillServed(cfg, states, actions, m, n - 1, request);
      RunKeepsInv(cfg, states, actions, n - 1);
      hide Inv, Served, Apply, Enabled;
      StepKeepsServed(states[n - 1], actions[n - 1], |states[m].logs.accepted|, request);
    }
  }

  // ---------------------------------------------------------------- a re-entrant dispatch

  function CountSelected(s: State, key: Option<int>): nat {
    match key
    case None => |s.order|
    case Some(k) => |OfKey(s.order, k)|
  }

  function AtLeastOne(n: nat): nat {
    if n == 0 then 1 else n
  }

  /**
   A re-entrant dispatch without work does nothing. It is refused, and changes nothing, exactly when
   its events, or its one slot, exceed the deferred budget. Otherwise everything its key selects is
   handed over or deferred by then, in one operation charged to the budget.
   */
  lemma ReentrantAnswers(cfg: Config, states: seq<State>, actions: seq<Action>, n: nat, key: Option<int>,
                         wantsRelease: bool)
    requires IsRun(cfg, states, actions) && n < |states| && InDelivery(states[n]) && (wantsRelease ==> key.Some?)
    ensures var s, t := states[n], ReentrantDispatch(states[n], key, wantsRelease);
            var count := CountSelected(s, key);
            if count == 0 && !wantsRelease then t == s
            else if s.deferredSize + AtLeastOne(count) > cfg.maxPending then t == s
            else
              && AllIn(t.logs.handed + ItemsOf(t.deferred), t, |s.logs.accepted|, key)
              && |t.deferred| == |s.deferred| + 1 && t.deferredSize == s.deferredSize + AtLeastOne(count)
              && (t.deferred[|s.deferred|].release.Some? <==> wantsRelease)
              && |t.order| == |s.order| - count
  {
    RunKeepsInv(cfg, states, actions, n);
    var s := states[n];
    RemainingShorter(s.order, key);
    if (CountSelected(s, key) > 0 || wantsRelease) && s.deferredSize + AtLeastOne(CountSelected(s, key)) <= cfg.maxPending {
      var op := TakeOperation(s, key, wantsRelease).1;
      PipeOf(s);
      DrainedStandsAhead(s, key, s.logs.handed + ItemsOf(s.deferred));
      AppendOperation(s.deferred, op);
      assert ItemsOf(s.deferred + [op]) == ItemsOf(s.deferred) + op.items;
      assert s.logs.handed + ItemsOf(s.deferred) + op.items == s.logs.handed + (ItemsOf(s.deferred) + op.items);
      hide Inv, Owed, Pipe;
    }
  }

  // ---------------------------------------------------------------- what `add` answers

  /** A queue with room takes an ordinary event at its end, and asks for a flush when a batch is full. */
  lemma RoomAccepts(s: State, key: int, event: int, channels: seq<int>)
    requires s.cfg.Valid() && |s.order| < s.cfg.maxPending
    ensures var item := Item(|s.logs.accepted|, key, event, channels);
            var t := Add(s, key, event, channels, false);
            && AddDecision(s, false) == Accepted(|s.order| + 1 >= s.cfg.batchSize)
            && t.order == s.order + [item] && t.logs.accepted == s.logs.accepted + [item]
            && t.logs.dropped == s.logs.dropped && t.deferred == s.deferred && t.drainer == s.drainer
  {
  }

  /**
   A full queue answers by its policy: `drop_newest` drops the event silently, `error` raises, `block`
   makes an ordinary caller wait and raises for a re-entrant one, none of them changing anything; and
   `drop_oldest` takes an ordinary event in place of the head.
   */
  lemma FullQueueAnswers(cfg: Config, states: seq<State>, actions: seq<Action>, n: nat,
                         key: int, event: int, channels: seq<int>, reentrant: bool)
    requires IsRun(cfg, states, actions) && n < |states| && states[n].cfg.Valid() && |states[n].order| >= cfg.maxPending
    ensures var s, t := states[n], Add(states[n], key, event, channels, reentrant);
            match cfg.overflow
            case DropNewest => AddDecision(s, reentrant) == Dropped && t == s
            case RaiseError => AddDecision(s, reentrant) == Full && t == s
            case Block => AddDecision(s, reentrant) == (if reentrant then Full else Waiting) && t == s
            case DropOldest =>
              !reentrant ==>
                var item := Item(|s.logs.accepted|, key, event, channels);
                && AddDecision(s, reentrant) == Accepted(cfg.maxPending >= cfg.batchSize)
                && t.order == s.order[1..] + [item] && t.logs.accepted == s.logs.accepted + [item]
                && t.logs.dropped == s.logs.dropped + {s.order[0].id}
  {
    RunKeepsInv(cfg, states, actions, n);
  }
}
