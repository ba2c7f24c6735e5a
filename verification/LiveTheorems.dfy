/** What the invariant means for whole runs of live event delivery. */
module LiveTheorems {
  import opened Wrappers
  import opened LiveProtocol
  import opened LiveInvariant

  ghost predicate IsRun(cfg: Config, states: seq<State>, actions: seq<Action>) {
    && cfg.Valid()
    && |states| == |actions| + 1
    && states[0] == Init(cfg)
    && (forall i :: 0 <= i < |actions| ==>
          && states[i].cfg.Valid()
          && Enabled(states[i], actions[i])
          && states[i + 1] == Apply(states[i], actions[i]))
  }

  lemma StepKeepsConfig(s: State, a: Action)
    requires s.cfg.Valid() && Enabled(s, a)
    ensures Apply(s, a).cfg == s.cfg
  {
  }

  lemma {:induction false} RunKeepsInv(cfg: Config, states: seq<State>, actions: seq<Action>, n: nat)
    requires IsRun(cfg, states, actions) && n < |states|
    ensures Inv(states[n]) && states[n].cfg == cfg
  {
    hide Inv;
    if n == 0 {
      InitInv(cfg);
    } else {
      RunKeepsInv(cfg, states, actions, n - 1);
      StepKeepsInv(states[n - 1], actions[n - 1]);
      StepKeepsConfig(states[n - 1], actions[n - 1]);
    }
  }

  /**
   Order per key: at every moment, what the sink received of a key, followed by what is deferred
   and what is queued, is what was accepted of that key less what was dropped, in that order.
   */
  lemma KeyOrder(cfg: Config, states: seq<State>, actions: seq<Action>, n: nat, k: int)
    requires IsRun(cfg, states, actions) && n < |states|
    ensures var s := states[n];
            OfKey(s.logs.handed, k) + OfKey(ItemsOf(s.deferred), k) + OfKey(s.order, k)
            == OfKey(Undropped(s.logs.accepted, s.logs.dropped), k)
  {
    RunKeepsInv(cfg, states, actions, n);
    var s := states[n];
    OfKeyConcat(s.logs.handed + ItemsOf(s.deferred), s.order, k);
    OfKeyConcat(s.logs.handed, ItemsOf(s.deferred), k);
  }

  // An item that sits at two places of a sequence occurs twice in its key's view.
  lemma TwiceInView(items: seq<Item>, i: nat, j: nat)
    requires i < j < |items| && items[i] == items[j]
    ensures !Increasing(OfKey(items, items[i].key))
  {
    var x := items[i];
    assert items == items[..i] + [x] + items[i + 1..j] + [x] + items[j + 1..];
    OfKeyConcat(items[..i] + [x] + items[i + 1..j] + [x], items[j + 1..], x.key);
    OfKeyConcat(items[..i] + [x] + items[i + 1..j], [x], x.key);
    OfKeyConcat(items[..i] + [x], items[i + 1..j], x.key);
    OfKeyConcat(items[..i], [x], x.key);
    var a, b, c := OfKey(items[..i], x.key), OfKey(items[i + 1..j], x.key), OfKey(items[j + 1..], x.key);
    assert OfKey([x], x.key) == [x];
    var view := a + [x] + b + [x] + c;
    assert OfKey(items, x.key) == view;
    assert view[|a|] == x && view[|a| + 1 + |b|] == x;
  }

  /**
   Conservation: every accepted event is dropped, or stands at exactly one place among those handed
   to the sink, deferred and queued; and nothing else stands there.
   */
  lemma Conservation(cfg: Config, states: seq<State>, actions: seq<Action>, n: nat)
    requires IsRun(cfg, states, actions) && n < |states|
    ensures var s := states[n];
            && (forall i :: 0 <= i < |s.logs.accepted| ==>
                  (i in s.logs.dropped <==> s.logs.accepted[i] !in Pipe(s)))
            && (forall x :: x in Pipe(s) ==> x in s.logs.accepted)
            && (forall i, j :: 0 <= i < j < |Pipe(s)| ==> Pipe(s)[i] != Pipe(s)[j])
  {
    RunKeepsInv(cfg, states, actions, n);
    var s := states[n];
    forall i | 0 <= i < |s.logs.accepted|
      ensures i in s.logs.dropped <==> s.logs.accepted[i] !in Pipe(s)
    {
      PipeMembers(s, s.logs.accepted[i]);
    }
    forall x | x in Pipe(s) ensures x in s.logs.accepted {
      PipeMembers(s, x);
    }
    forall i, j | 0 <= i < j < |Pipe(s)| ensures Pipe(s)[i] != Pipe(s)[j] {
      PipeIncreasing(s, Pipe(s)[i].key);
      if Pipe(s)[i] == Pipe(s)[j] { TwiceInView(Pipe(s), i, j); }
    }
  }

  // The queue bound, and the budget of deferred deliveries with its reserved slot.
  lemma DeferredBudget(cfg: Config, states: seq<State>, actions: seq<Action>, n: nat)
    requires IsRun(cfg, states, actions) && n < |states|
    ensures var s := states[n];
            && |s.order| <= cfg.maxPending
            && s.deferredSize == SizeOf(s.deferred) + Reserved(s)
            && s.deferredSize <= cfg.maxPending
  {
    RunKeepsInv(cfg, states, actions, n);
  }

  /**
   Releases: those begun, the one a batch in flight owes and those queued are, in this order,
   number 0, 1, 2... as handed over. So each begins at most once, in order, and a cancelled
   publish neither loses nor repeats the release it owed.
   */
  lemma ReleasesOnceInOrder(cfg: Config, states: seq<State>, actions: seq<Action>, n: nat)
    requires IsRun(cfg, states, actions) && n < |states|
    ensures var s := states[n];
            s.logs.released + InFlightRelease(s) + ReleasesOf(s.deferred) == seq(s.logs.issued, i => i)
  {
    RunKeepsInv(cfg, states, actions, n);
  }

  // ---------------------------------------------------------------- what a release waits for

  // The key of the release that a step hands over, if it hands one over.
  function IssuedKey(s: State, a: Action): Option<int> {
    match a
    case DoReentrantDispatch(key, true) =>
      if RoomForOperation(s, key) then key else None
    case DoContinue =>
      if s.deferred == [] && s.drainer.Draining? && s.drainer.request.Some? && s.drainer.request.value.wantsRelease
      then s.drainer.request.value.key else None
    case _ => None
  }

  lemma StepLogs(s: State, a: Action)
    requires s.cfg.Valid() && Enabled(s, a)
    ensures var t := Apply(s, a);
            && s.logs.accepted <= t.logs.accepted
            && s.logs.dropped <= t.logs.dropped
            && s.logs.handed <= t.logs.handed
            && s.logs.released <= t.logs.released
    ensures var t := Apply(s, a);
            match IssuedKey(s, a)
            case Some(k) => t.logs.issued == s.logs.issued + 1 && t.logs.owed == s.logs.owed[s.logs.issued := Owed(s, k)]
            case None => t.logs.issued == s.logs.issued && t.logs.owed == s.logs.owed
  {
    hide OfKey, NotOfKey, ItemsOf, SizeOf, ReleasesOf, Owed;
  }

  // Once recorded, what a release waits for does not change.
  lemma {:induction false} OwedIsFixed(cfg: Config, states: seq<State>, actions: seq<Action>, m: nat, n: nat, r: nat)
    requires IsRun(cfg, states, actions) && m <= n < |states|
    requires r < states[m].logs.issued && r in states[m].logs.owed
    ensures r in states[n].logs.owed && states[n].logs.owed[r] == states[m].logs.owed[r]
    decreases n - m
  {
    if m < n {
      StepLogs(states[m], actions[m]);
      OwedIsFixed(cfg, states, actions, m + 1, n, r);
    }
  }

  lemma {:induction false} AcceptedIsFixed(cfg: Config, states: seq<State>, actions: seq<Action>, m: nat, n: nat)
    requires IsRun(cfg, states, actions) && m <= n < |states|
    ensures states[m].logs.accepted <= states[n].logs.accepted
    decreases n - m
  {
    if m < n {
      StepLogs(states[m], actions[m]);
      AcceptedIsFixed(cfg, states, actions, m + 1, n);
    }
  }

  /**
   An immediate release of key `k`, handed over by step `m`, has begun by step `n` only if every
   event of `k` accepted before `m` and not dropped by then was handed to the sink before.
   */
  lemma ReleaseAfterItsEvents(cfg: Config, states: seq<State>, actions: seq<Action>, m: nat, n: nat, k: int, i: nat)
    requires IsRun(cfg, states, actions) && m < n < |states|
    requires IssuedKey(states[m], actions[m]) == Some(k)
    requires states[m].logs.issued in states[n].logs.released
    requires i < |states[m].logs.accepted| && states[m].logs.accepted[i].key == k && i !in states[m].logs.dropped
    ensures states[m].logs.accepted[i] in states[n].logs.handed
  {
    RunKeepsInv(cfg, states, actions, m);
    RunKeepsInv(cfg, states, actions, n);
    var s, t := states[m], states[n];
    var r := s.logs.issued;
    StepLogs(s, actions[m]);
    OwedIsFixed(cfg, states, actions, m + 1, n, r);
    assert i in Owed(s, k);
    assert i in Ids(t.logs.handed);
    var x :| x in t.logs.handed && x.id == i;
    assert x in Pipe(t);
    PipeMembers(t, x);
    AcceptedIsFixed(cfg, states, actions, m, n);
  }

  // ---------------------------------------------------------------- re-entrant callers

  // The re-entrancy test of `add` is exactly what the flush it triggers needs: an accepted
  // re-entrant event that fills the batch can always be deferred.
  lemma ReentrantAddCanFlush(cfg: Config, states: seq<State>, actions: seq<Action>, n: nat,
                             key: int, event: int, channels: seq<int>)
    requires IsRun(cfg, states, actions) && n < |states|
    requires states[n].cfg.Valid() && InDelivery(states[n]) && AddDecision(states[n], true) == Accepted(true)
    ensures var t := Apply(states[n], DoAdd(key, event, channels, true));
            && RoomForOperation(t, None)
            && !NothingToDispatch(t, None, false)
            && ReentrantDispatch(t, None, false).order == []
  {
  }

  // ---------------------------------------------------------------- dropping for a refused event

  // The full queue of `drop_oldest` loses its head although the re-entrancy test will refuse.
  predicate LosesWithoutTaking(s: State, reentrant: bool) {
    && s.cfg.overflow.DropOldest? && |s.order| == s.cfg.maxPending
    && reentrant && s.cfg.batchSize <= s.cfg.maxPending && s.deferredSize > 0
  }

  /**
   In every reachable state: an `add` that does not accept its event leaves the buffer alone, except
   that under `drop_oldest` a full queue has lost its head by then; and that is exactly when a
   re-entrant caller meets a full queue, in which one event fills a batch, with something deferred.
   */
  lemma RefusedAddChanges(cfg: Config, states: seq<State>, actions: seq<Action>, n: nat,
                          key: int, event: int, channels: seq<int>, reentrant: bool)
    requires IsRun(cfg, states, actions) && n < |states| && states[n].cfg.Valid()
    ensures var s, t := states[n], Add(states[n], key, event, channels, reentrant);
            !AddDecision(s, reentrant).Accepted? ==>
              && (t == s <==> !(|s.order| >= cfg.maxPending && cfg.overflow.DropOldest?))
              && (t != s <==> LosesWithoutTaking(s, reentrant))
    ensures var s, t := states[n], Add(states[n], key, event, channels, reentrant);
            LosesWithoutTaking(s, reentrant) ==>
              && AddDecision(s, reentrant) == Full
              && t.order == s.order[1..] && t.logs.accepted == s.logs.accepted
              && t.logs.dropped == s.logs.dropped + {s.order[0].id}
  {
    RunKeepsInv(cfg, states, actions, n);
    var s := states[n];
    if |s.order| >= cfg.maxPending && cfg.overflow.DropOldest? {
      assert |DropHead(s).order| < |s.order|;
    }
  }

  lemma ExtendRun(cfg: Config, states: seq<State>, actions: seq<Action>, a: Action)
    requires IsRun(cfg, states, actions) && states[|actions|].cfg.Valid() && Enabled(states[|actions|], a)
    ensures IsRun(cfg, states + [Apply(states[|actions|], a)], actions + [a])
  {
  }

  // A delivery is under way, one release is deferred, and the queue is not yet full.
  ghost predicate Jammed(cfg: Config, s: State) {
    s.cfg == cfg && InDelivery(s) && s.deferredSize == 1 && |s.order| <= cfg.maxPending
  }

  // An ordinary event, its flush, and an immediate release published from the callback.
  lemma JamRun(cfg: Config) returns (states: seq<State>, actions: seq<Action>)
    requires cfg.Valid()
    ensures IsRun(cfg, states, actions) && Jammed(cfg, states[|actions|])
  {
    actions := [DoAdd(0, 0, [], false), DoLock(Request(None, false)), DoContinue, DoReentrantDispatch(Some(0), true)];
    var s1 := Apply(Init(cfg), actions[0]);
    var s2 := Apply(s1, actions[1]);
    var s3 := Apply(s2, actions[2]);
    assert s3.order == [] && InDelivery(s3) && Matching(s3.order, Some(0)) == [];
    states := [Init(cfg), s1, s2, s3, Apply(s3, actions[3])];
  }

  // Ordinary producers fill the queue behind it.
  lemma {:induction false} FillQueue(cfg: Config, states: seq<State>, actions: seq<Action>)
    returns (longer: seq<State>, more: seq<Action>)
    requires cfg.Valid() && IsRun(cfg, states, actions) && Jammed(cfg, states[|actions|])
    ensures IsRun(cfg, longer, more) && Jammed(cfg, longer[|more|]) && |longer[|more|].order| == cfg.maxPending
    decreases cfg.maxPending - |states[|actions|].order|
  {
    var s := states[|actions|];
    if |s.order| == cfg.maxPending {
      longer, more := states, actions;
    } else {
      var a := DoAdd(0, 0, [], false);
      ExtendRun(cfg, states, actions, a);
      hide IsRun;
      longer, more := FillQueue(cfg, states + [Apply(s, a)], actions + [a]);
    }
  }

  ghost predicate CanLoseWithoutTaking(cfg: Config) {
    exists states, actions :: IsRun(cfg, states, actions)
                              && InDelivery(states[|actions|]) && LosesWithoutTaking(states[|actions|], true)
  }

  lemma LossWitness(cfg: Config, states: seq<State>, actions: seq<Action>)
    requires IsRun(cfg, states, actions)
    requires InDelivery(states[|actions|]) && LosesWithoutTaking(states[|actions|], true)
    ensures CanLoseWithoutTaking(cfg)
  {
  }

  lemma LossNeeds(cfg: Config, states: seq<State>, actions: seq<Action>)
    requires IsRun(cfg, states, actions) && LosesWithoutTaking(states[|actions|], true)
    ensures cfg.overflow.DropOldest? && cfg.batchSize <= cfg.maxPending
  {
    RunKeepsInv(cfg, states, actions, |actions|);
  }

  /** A configuration has such a reachable state exactly when it drops the oldest and its batch fits the queue. */
  lemma LossIsReachable(cfg: Config)
    requires cfg.Valid()
    ensures CanLoseWithoutTaking(cfg) <==> cfg.overflow.DropOldest? && cfg.batchSize <= cfg.maxPending
  {
    if CanLoseWithoutTaking(cfg) {
      var states, actions :| IsRun(cfg, states, actions) && LosesWithoutTaking(states[|actions|], true);
      LossNeeds(cfg, states, actions);
    }
    if cfg.overflow.DropOldest? && cfg.batchSize <= cfg.maxPending {
      var states, actions := JamRun(cfg);
      states, actions := FillQueue(cfg, states, actions);
      LossWitness(cfg, states, actions);
    }
  }

  // ---------------------------------------------------------------- nothing left behind

  predicate Cancels(a: Action) {
    a.DoPublishCancelled? || a == DoReleaseEnds(true)
  }

  lemma StepLeavesNothing(s: State, a: Action)
    requires s.cfg.Valid() && Enabled(s, a) && !Cancels(a)
    requires s.drainer.Unlocked? ==> s.deferred == []
    ensures Apply(s, a).drainer.Unlocked? ==> Apply(s, a).deferred == []
  {
    hide OfKey, NotOfKey, ItemsOf, SizeOf, ReleasesOf, Owed, Matching, Remaining;
  }

  /** As long as no delivery is cancelled, the lock is never free while anything is deferred. */
  lemma {:induction false} UnlockedWithNothingDeferred(cfg: Config, states: seq<State>, actions: seq<Action>, n: nat)
    requires IsRun(cfg, states, actions) && n < |states| && states[n].drainer.Unlocked?
    requires forall i :: 0 <= i < n ==> !Cancels(actions[i])
    ensures states[n].deferred == []
    ensures states[n].deferredSize == 0
  {
    NothingBehind(cfg, states, actions, n);
    RunKeepsInv(cfg, states, actions, n);
  }

  lemma {:induction false} NothingBehind(cfg: Config, states: seq<State>, actions: seq<Action>, n: nat)
    requires IsRun(cfg, states, actions) && n < |states|
    requires forall i :: 0 <= i < n ==> !Cancels(actions[i])
    ensures states[n].drainer.Unlocked? ==> states[n].deferred == []
  {
    if n > 0 {
      NothingBehind(cfg, states, actions, n - 1);
      StepLeavesNothing(states[n - 1], actions[n - 1]);
    }
  }
}
