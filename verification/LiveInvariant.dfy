/** What every step of live event delivery keeps. */
module LiveInvariant {
  import opened Wrappers
  import opened LiveProtocol

  // ---------------------------------------------------------------- filters

  lemma OfKeyHead(x: Item, rest: seq<Item>, k: int)
    ensures OfKey([x] + rest, k) == (if x.key == k then [x] else []) + OfKey(rest, k)
  {
  }

  lemma {:induction false} OfKeyConcat(a: seq<Item>, b: seq<Item>, k: int)
    ensures OfKey(a + b, k) == OfKey(a, k) + OfKey(b, k)
  {
    if a == [] {
      assert a + b == b;
    } else {
      hide OfKey;
      OfKeyConcat(a[1..], b, k);
      OfKeyHead(a[0], a[1..], k);
      OfKeyHead(a[0], a[1..] + b, k);
      assert a == [a[0]] + a[1..] && a + b == [a[0]] + (a[1..] + b);
    }
  }

  // Taking one key out of the queue splits every other key's view cleanly.
  lemma {:induction false} OfKeySplit(items: seq<Item>, k: int, j: int)
    ensures OfKey(OfKey(items, k), j) + OfKey(NotOfKey(items, k), j) == OfKey(items, j)
    ensures k == j ==> OfKey(NotOfKey(items, k), j) == [] && OfKey(OfKey(items, k), j) == OfKey(items, k)
    ensures k != j ==> OfKey(OfKey(items, k), j) == []
  {
    if items != [] {
      OfKeySplit(items[1..], k, j);
      OfKeyConcat(if items[0].key == k then [items[0]] else [], OfKey(items[1..], k), j);
      OfKeyConcat(if items[0].key == k then [] else [items[0]], NotOfKey(items[1..], k), j);
    }
  }

  lemma {:induction false} OfKeyMember(items: seq<Item>, k: int, x: Item)
    ensures x in OfKey(items, k) <==> x in items && x.key == k
  {
    if items != [] { OfKeyMember(items[1..], k, x); }
  }

  lemma MatchingKeepsView(items: seq<Item>, key: Option<int>, j: int)
    ensures OfKey(Matching(items, key) + Remaining(items, key), j) == OfKey(items, j)
  {
    OfKeyConcat(Matching(items, key), Remaining(items, key), j);
    if key.Some? { OfKeySplit(items, key.value, j); }
  }

  lemma {:induction false} RemainingShorter(items: seq<Item>, key: Option<int>)
    ensures |Matching(items, key)| + |Remaining(items, key)| == |items|
  {
    if key.Some? && items != [] { RemainingShorter(items[1..], key); }
  }

  function Undropped(items: seq<Item>, dropped: set<nat>): seq<Item> {
    if items == [] then []
    else (if items[0].id in dropped then [] else [items[0]]) + Undropped(items[1..], dropped)
  }

  lemma {:induction false} UndroppedConcat(a: seq<Item>, b: seq<Item>, dropped: set<nat>)
    ensures Undropped(a + b, dropped) == Undropped(a, dropped) + Undropped(b, dropped)
  {
    if a == [] {
      assert a + b == b;
    } else {
      assert (a + b)[1..] == a[1..] + b;
      UndroppedConcat(a[1..], b, dropped);
    }
  }

  lemma {:induction false} UndroppedMember(items: seq<Item>, dropped: set<nat>, x: Item)
    ensures x in Undropped(items, dropped) <==> x in items && x.id !in dropped
  {
    if items != [] { UndroppedMember(items[1..], dropped, x); }
  }

  // Dropping one more id afterwards, or before the key filter, is the same.
  lemma {:induction false} DropCommutes(items: seq<Item>, dropped: set<nat>, id: nat, k: int)
    ensures OfKey(Undropped(items, dropped + {id}), k) == Undropped(OfKey(Undropped(items, dropped), k), {id})
  {
    if items != [] {
      DropCommutes(items[1..], dropped, id, k);
      var head := if items[0].id in dropped then [] else [items[0]];
      OfKeyConcat(head, Undropped(items[1..], dropped), k);
      UndroppedConcat(OfKey(head, k), OfKey(Undropped(items[1..], dropped), k), {id});
      OfKeyConcat(if items[0].id in dropped + {id} then [] else [items[0]], Undropped(items[1..], dropped + {id}), k);
    }
  }

  // ---------------------------------------------------------------- the invariant

  ghost predicate Increasing(items: seq<Item>) {
    forall i, j :: 0 <= i < j < |items| ==> items[i].id < items[j].id
  }

  // Everything accepted and not dropped, in the order in which the sink will have seen it.
  function Pipe(s: State): seq<Item> {
    s.logs.handed + ItemsOf(s.deferred) + s.order
  }

  // What key `k` should still yield: its accepted events less the dropped ones.
  function Survivors(s: State, k: int): seq<Item> {
    OfKey(Undropped(s.logs.accepted, s.logs.dropped), k)
  }

  ghost predicate NumberedInv(s: State) {
    && (forall i :: 0 <= i < |s.logs.accepted| ==> s.logs.accepted[i].id == i)
    && (forall d :: d in s.logs.dropped ==> d < |s.logs.accepted|)
  }

  // Key by key, the pipe is the accepted events less the dropped ones, in acceptance order.
  ghost predicate InOrder(pipe: seq<Item>, accepted: seq<Item>, dropped: set<nat>) {
    forall k :: OfKey(pipe, k) == OfKey(Undropped(accepted, dropped), k)
  }

  ghost predicate OrderInv(s: State) {
    InOrder(Pipe(s), s.logs.accepted, s.logs.dropped)
  }

  // The slot reserved while a batch in flight still owes its release.
  function Reserved(s: State): nat {
    if InDelivery(s) && s.drainer.flight.value.Publishing? && s.drainer.flight.value.operation.release.Some?
    then 1 else 0
  }

  ghost predicate BudgetInv(s: State) {
    && |s.order| <= s.cfg.maxPending
    && s.deferredSize == SizeOf(s.deferred) + Reserved(s)
    && s.deferredSize <= s.cfg.maxPending
  }

  function InFlightRelease(s: State): seq<nat> {
    if InDelivery(s) && s.drainer.flight.value.Publishing? && s.drainer.flight.value.operation.release.Some?
    then [s.drainer.flight.value.operation.release.value.id] else []
  }

  // Every release handed over is begun, in flight or queued: once, and in hand-over order.
  ghost predicate ReleaseInv(s: State) {
    s.logs.released + InFlightRelease(s) + ReleasesOf(s.deferred) == seq(s.logs.issued, i => i)
  }

  function Ids(items: seq<Item>): set<nat> {
    set x | x in items :: x.id
  }

  // Each queued release is preceded, in the hand-over order, by all it must wait for.
  ghost predicate OwedBefore(owed: map<nat, set<nat>>, ops: seq<Delivery>, handed: set<nat>) {
    if ops == [] then true
    else
      var after := handed + Ids(ops[0].items);
      && (ops[0].release.Some? ==> ops[0].release.value.id in owed && owed[ops[0].release.value.id] <= after)
      && OwedBefore(owed, ops[1..], after)
  }

  ghost predicate OwedInv(s: State) {
    && (forall r: nat :: r in s.logs.owed <==> r < s.logs.issued)
    && (forall r :: r in InFlightRelease(s) ==> r in s.logs.owed && s.logs.owed[r] <= Ids(s.logs.handed))
    && (forall r :: r in s.logs.released ==> r in s.logs.owed && s.logs.owed[r] <= Ids(s.logs.handed))
    && OwedBefore(s.logs.owed, s.deferred, Ids(s.logs.handed))
  }

  // Only `publish_immediate` carries a release, and it always names a key.
  ghost predicate RequestInv(s: State) {
    s.drainer.Draining? && s.drainer.request.Some? && s.drainer.request.value.wantsRelease ==>
      s.drainer.request.value.key.Some?
  }

  ghost predicate Inv(s: State) {
    && s.cfg.Valid() && NumberedInv(s) && OrderInv(s) && BudgetInv(s) && ReleaseInv(s) && OwedInv(s)
    && RequestInv(s)
  }

  lemma InitInv(cfg: Config)
    requires cfg.Valid()
    ensures Inv(Init(cfg))
  {
  }

  // ---------------------------------------------------------------- consequences used by the steps

  lemma {:induction false} UndroppedIncreasing(items: seq<Item>, dropped: set<nat>)
    requires Increasing(items)
    ensures Increasing(Undropped(items, dropped))
  {
    if items != [] {
      UndroppedIncreasing(items[1..], dropped);
      forall x | x in Undropped(items[1..], dropped) ensures items[0].id < x.id {
        UndroppedMember(items[1..], dropped, x);
      }
    }
  }

  lemma {:induction false} OfKeyIncreasing(items: seq<Item>, k: int)
    requires Increasing(items)
    ensures Increasing(OfKey(items, k))
  {
    if items != [] {
      OfKeyIncreasing(items[1..], k);
      forall x | x in OfKey(items[1..], k) ensures items[0].id < x.id {
        OfKeyMember(items[1..], k, x);
      }
    }
  }

  // Per key, ids strictly increase along the pipe: nothing is in it twice, or out of order.
  lemma PipeIncreasing(s: State, k: int)
    requires NumberedInv(s) && OrderInv(s)
    ensures Increasing(OfKey(Pipe(s), k))
  {
    UndroppedIncreasing(s.logs.accepted, s.logs.dropped);
    OfKeyIncreasing(Undropped(s.logs.accepted, s.logs.dropped), k);
  }

  // The pipe holds exactly the accepted, undropped items.
  lemma PipeMembers(s: State, x: Item)
    requires NumberedInv(s) && OrderInv(s)
    ensures x in Pipe(s) <==> x.id < |s.logs.accepted| && s.logs.accepted[x.id] == x && x.id !in s.logs.dropped
  {
    OfKeyMember(Pipe(s), x.key, x);
    OfKeyMember(Undropped(s.logs.accepted, s.logs.dropped), x.key, x);
    UndroppedMember(s.logs.accepted, s.logs.dropped, x);
  }

  lemma OthersDiffer(a: seq<Item>, x: Item, b: seq<Item>)
    requires Increasing(a + [x] + b)
    ensures forall y :: y in a || y in b ==> y.id != x.id
  {
    var all := a + [x] + b;
    assert all[|a|] == x;
    forall y | y in a ensures y.id != x.id {
      var i :| 0 <= i < |a| && a[i] == y;
      assert all[i] == y;
    }
    forall y | y in b ensures y.id != x.id {
      var i :| 0 <= i < |b| && b[i] == y;
      assert all[|a| + 1 + i] == y;
    }
  }

  // Removing one of strictly increasing ids removes one element.
  lemma RemoveOne(a: seq<Item>, x: Item, b: seq<Item>)
    requires Increasing(a + [x] + b)
    ensures Undropped(a + [x] + b, {x.id}) == a + b
  {
    assert Undropped([x], {x.id}) == [];
    OthersDiffer(a, x, b);
    hide Increasing, Undropped;
    NothingDropped(a, {x.id});
    NothingDropped(b, {x.id});
    UndroppedConcat(a, [x], {x.id});
    UndroppedConcat(a + [x], b, {x.id});
  }

  lemma {:induction false} NothingDropped(items: seq<Item>, dropped: set<nat>)
    requires forall x :: x in items ==> x.id !in dropped
    ensures Undropped(items, dropped) == items
  {
    if items != [] { NothingDropped(items[1..], dropped); }
  }

  // ---------------------------------------------------------------- add

  // Dropping the head of the queue removes it, and only it, from its own key's view.
  lemma DropHeadView(s: State, k: int)
    requires NumberedInv(s) && OrderInv(s) && s.order != []
    ensures OfKey(Pipe(DropHead(s)), k) == Undropped(OfKey(Pipe(s), k), {s.order[0].id})
  {
    var x, rest := s.order[0], s.order[1..];
    var front := s.logs.handed + ItemsOf(s.deferred);
    assert Pipe(s) == front + ([x] + rest);
    OfKeyConcat(front, [x] + rest, k);
    OfKeyConcat([x], rest, k);
    OfKeyConcat(front, rest, k);
    if x.key == k {
      PipeIncreasing(s, k);
      assert OfKey(Pipe(s), k) == OfKey(front, k) + [x] + OfKey(rest, k);
      RemoveOne(OfKey(front, k), x, OfKey(rest, k));
    } else {
      OtherKeysKeep(s, x, k);
    }
  }

  lemma OtherKeysKeep(s: State, x: Item, k: int)
    requires NumberedInv(s) && OrderInv(s) && x in Pipe(s) && x.key != k
    ensures Undropped(OfKey(Pipe(s), k), {x.id}) == OfKey(Pipe(s), k)
  {
    PipeMembers(s, x);
    forall y | y in OfKey(Pipe(s), k) ensures y.id !in {x.id} {
      OfKeyMember(Pipe(s), k, y);
      PipeMembers(s, y);
    }
    NothingDropped(OfKey(Pipe(s), k), {x.id});
  }

  lemma DropHeadInv(s: State)
    requires Inv(s) && s.order != []
    ensures Inv(DropHead(s))
  {
    PipeMembers(s, s.order[0]);
    forall k ensures OfKey(Pipe(DropHead(s)), k) == Survivors(DropHead(s), k) {
      DropHeadView(s, k);
      DropCommutes(s.logs.accepted, s.logs.dropped, s.order[0].id, k);
    }
  }

  lemma AppendItemInv(s: State, key: int, event: int, channels: seq<int>)
    requires Inv(s) && |s.order| < s.cfg.maxPending
    ensures Inv(AppendItem(s, key, event, channels))
  {
    var t := AppendItem(s, key, event, channels);
    var x := Item(|s.logs.accepted|, key, event, channels);
    forall k ensures OfKey(Pipe(t), k) == Survivors(t, k) {
      assert Pipe(t) == Pipe(s) + [x];
      OfKeyConcat(Pipe(s), [x], k);
      UndroppedConcat(s.logs.accepted, [x], s.logs.dropped);
      OfKeyConcat(Undropped(s.logs.accepted, s.logs.dropped), Undropped([x], s.logs.dropped), k);
    }
  }

  lemma AddInv(s: State, key: int, event: int, channels: seq<int>, reentrant: bool)
    requires Inv(s)
    ensures Inv(Add(s, key, event, channels, reentrant))
  {
    if |s.order| >= s.cfg.maxPending && s.cfg.overflow.DropOldest? { DropHeadInv(s); }
    if AddDecision(s, reentrant).Accepted? { AppendItemInv(MakeRoom(s), key, event, channels); }
  }

  // ---------------------------------------------------------------- dispatch

  lemma {:induction false} AppendOperation(ops: seq<Delivery>, op: Delivery)
    ensures ItemsOf(ops + [op]) == ItemsOf(ops) + op.items
    ensures SizeOf(ops + [op]) == SizeOf(ops) + op.Size()
    ensures ReleasesOf(ops + [op]) == ReleasesOf(ops) + ReleasesOf([op])
  {
    if ops == [] {
      assert ops + [op] == [op];
    } else {
      assert (ops + [op])[1..] == ops[1..] + [op];
      AppendOperation(ops[1..], op);
    }
  }

  // What a queued release waits for only grows, so it may be judged later, with more handed over.
  lemma {:induction false} OwedAppend(owed: map<nat, set<nat>>, ops: seq<Delivery>, op: Delivery, handed: set<nat>)
    requires OwedBefore(owed, ops, handed)
    requires op.release.Some? ==>
               && op.release.value.id in owed
               && owed[op.release.value.id] <= handed + Ids(ItemsOf(ops)) + Ids(op.items)
    ensures OwedBefore(owed, ops + [op], handed)
  {
    if ops == [] {
      assert ops + [op] == [op];
      assert ItemsOf(ops) == [];
      assert [op][1..] == [];
    } else {
      assert (ops + [op])[1..] == ops[1..] + [op];
      IdsConcat(ops[0].items, ItemsOf(ops[1..]));
      OwedAppend(owed, ops[1..], op, handed + Ids(ops[0].items));
    }
  }

  lemma {:induction false} OwedUpdate(owed: map<nat, set<nat>>, ops: seq<Delivery>, handed: set<nat>, r: nat, w: set<nat>)
    requires OwedBefore(owed, ops, handed) && r !in owed
    ensures OwedBefore(owed[r := w], ops, handed)
  {
    if ops != [] { OwedUpdate(owed, ops[1..], handed + Ids(ops[0].items), r, w); }
  }

  lemma IdsConcat(a: seq<Item>, b: seq<Item>)
    ensures Ids(a + b) == Ids(a) + Ids(b)
  {
  }

  // A release just numbered waits for items that are handed, queued or in its own operation.
  lemma OwedIsCovered(s: State, k: int)
    requires Inv(s)
    ensures Owed(s, k) <= Ids(s.logs.handed) + Ids(ItemsOf(s.deferred)) + Ids(OfKey(s.order, k))
  {
    forall i | i in Owed(s, k)
      ensures i in Ids(s.logs.handed) + Ids(ItemsOf(s.deferred)) + Ids(OfKey(s.order, k))
    {
      var x := s.logs.accepted[i];
      PipeMembers(s, x);
      OfKeyMember(s.order, k, x);
    }
  }

  lemma TakeOperationPipe(s: State, key: Option<int>, wantsRelease: bool, j: int)
    requires Inv(s)
    ensures var (t, op) := TakeOperation(s, key, wantsRelease);
            OfKey(s.logs.handed + ItemsOf(s.deferred) + op.items + t.order, j) == OfKey(Pipe(s), j)
  {
    var (t, op) := TakeOperation(s, key, wantsRelease);
    var front := s.logs.handed + ItemsOf(s.deferred);
    MatchingKeepsView(s.order, key, j);
    OfKeyConcat(front, op.items + t.order, j);
    OfKeyConcat(front, s.order, j);
    assert front + op.items + t.order == front + (op.items + t.order);
  }

  // The operation has been drained and numbered but is not queued or delivered yet.
  ghost predicate TakenInv(s: State, op: Delivery) {
    && s.cfg.Valid() && NumberedInv(s) && BudgetInv(s)
    && InOrder(s.logs.handed + ItemsOf(s.deferred) + op.items + s.order, s.logs.accepted, s.logs.dropped)
    && RequestInv(s)
    && s.logs.released + InFlightRelease(s) + ReleasesOf(s.deferred) + ReleasesOf([op])
       == seq(s.logs.issued, i => i)
    && OwedInv(s)
    && (op.release.Some? ==>
          && op.release.value.id in s.logs.owed
          && s.logs.owed[op.release.value.id] <= Ids(s.logs.handed) + Ids(ItemsOf(s.deferred)) + Ids(op.items))
  }

  lemma TakeOperationInv(s: State, key: Option<int>, wantsRelease: bool)
    requires Inv(s) && (wantsRelease ==> key.Some?)
    ensures var (t, op) := TakeOperation(s, key, wantsRelease); TakenInv(t, op)
    ensures var (t, op) := TakeOperation(s, key, wantsRelease);
            t.deferred == s.deferred && t.deferredSize == s.deferredSize && t.drainer == s.drainer
  {
    var (t, op) := TakeOperation(s, key, wantsRelease);
    RemainingShorter(s.order, key);
    forall j ensures OfKey(t.logs.handed + ItemsOf(t.deferred) + op.items + t.order, j) == Survivors(t, j) {
      TakeOperationPipe(s, key, wantsRelease, j);
    }
    hide OfKey, Survivors, Matching, Remaining;
    assert ReleasesOf([op]) == if wantsRelease then [s.logs.issued] else [];
    if wantsRelease {
      OwedIsCovered(s, key.value);
      OwedUpdate(s.logs.owed, s.deferred, Ids(s.logs.handed), s.logs.issued, Owed(s, key.value));
      assert seq(s.logs.issued + 1, i => i) == seq(s.logs.issued, i => i) + [s.logs.issued];
      var all := seq(s.logs.issued, i => i);
      forall r | r in InFlightRelease(s) + s.logs.released ensures r < s.logs.issued {
        assert r in all;
      }
    }
  }

  lemma QueueOperationInv(s: State, op: Delivery)
    requires TakenInv(s, op) && s.deferredSize + op.Size() <= s.cfg.maxPending
    ensures Inv(s.(deferred := s.deferred + [op], deferredSize := s.deferredSize + op.Size()))
  {
    AppendOperation(s.deferred, op);
    OwedAppend(s.logs.owed, s.deferred, op, Ids(s.logs.handed));
    assert s.logs.handed + ItemsOf(s.deferred) + op.items == s.logs.handed + ItemsOf(s.deferred + [op]);
  }

  lemma ReentrantDispatchInv(s: State, key: Option<int>, wantsRelease: bool)
    requires Inv(s) && InDelivery(s) && (wantsRelease ==> key.Some?)
    ensures Inv(ReentrantDispatch(s, key, wantsRelease))
  {
    if !NothingToDispatch(s, key, wantsRelease) && RoomForOperation(s, key) {
      TakeOperationInv(s, key, wantsRelease);
      var (t, op) := TakeOperation(s, key, wantsRelease);
      QueueOperationInv(t, op);
    }
  }

  lemma LockInv(s: State, request: Request)
    requires Inv(s) && s.drainer.Unlocked? && (request.wantsRelease ==> request.key.Some?)
    ensures Inv(Lock(s, request))
  {
  }

  // Delivering an operation that is next in line: its items go first, then its release.
  ghost predicate NextInLine(s: State, op: Delivery) {
    && s.cfg.Valid() && NumberedInv(s)
    && |s.order| <= s.cfg.maxPending
    && s.drainer.Draining? && s.drainer.flight.None?
    && s.deferredSize == SizeOf(s.deferred) && s.deferredSize + (if op.release.Some? then 1 else 0) <= s.cfg.maxPending
    && InOrder(s.logs.handed + op.items + ItemsOf(s.deferred) + s.order, s.logs.accepted, s.logs.dropped)
    && s.logs.released + ReleasesOf([op]) + ReleasesOf(s.deferred) == seq(s.logs.issued, i => i)
    && (forall r: nat :: r in s.logs.owed <==> r < s.logs.issued)
    && (forall r :: r in s.logs.released ==> r in s.logs.owed && s.logs.owed[r] <= Ids(s.logs.handed))
    && OwedBefore(s.logs.owed, [op] + s.deferred, Ids(s.logs.handed))
  }

  lemma DeliverInv(s: State, op: Delivery, request: Option<Request>)
    requires NextInLine(s, op)
    requires request.Some? && request.value.wantsRelease ==> request.value.key.Some?
    ensures Inv(Deliver(s, op, request))
  {
    var t := Deliver(s, op, request);
    IdsConcat(s.logs.handed, op.items);
    assert ([op] + s.deferred)[1..] == s.deferred;
    assert ReleasesOf([op]) == if op.release.Some? then [op.release.value.id] else [];
    assert t.logs.handed == s.logs.handed + op.items;
    assert Pipe(t) == s.logs.handed + op.items + ItemsOf(s.deferred) + s.order;
    assert Ids(op.items) <= Ids(t.logs.handed);
  }

  function PopDeferred(s: State): State
    requires s.deferred != []
  {
    s.(deferred := s.deferred[1..], deferredSize := s.deferredSize - s.deferred[0].Size())
  }

  lemma PopDeferredInLine(s: State)
    requires Inv(s) && s.drainer.Draining? && s.drainer.flight.None? && s.deferred != []
    ensures NextInLine(PopDeferred(s), s.deferred[0])
  {
    var op, t := s.deferred[0], PopDeferred(s);
    assert [op] + t.deferred == s.deferred;
    assert s.logs.handed + op.items + ItemsOf(t.deferred) + s.order == Pipe(s);
    assert ReleasesOf(s.deferred) == ReleasesOf([op]) + ReleasesOf(t.deferred);
  }

  lemma ContinueInv(s: State)
    requires Inv(s) && s.drainer.Draining? && s.drainer.flight.None?
    ensures Inv(Continue(s))
  {
    if s.deferred != [] {
      PopDeferredInLine(s);
      DeliverInv(PopDeferred(s), s.deferred[0], s.drainer.request);
    } else if s.drainer.request.Some? {
      ContinueMainInv(s, s.drainer.request.value);
    } else {
      assert Pipe(Continue(s)) == Pipe(s);
    }
  }

  lemma ContinueMainInv(s: State, request: Request)
    requires Inv(s) && s.drainer.Draining? && s.drainer.flight.None? && s.deferred == []
    requires request.wantsRelease ==> request.key.Some?
    ensures Inv(Deliver(TakeOperation(s, request.key, request.wantsRelease).0,
                        TakeOperation(s, request.key, request.wantsRelease).1, None))
  {
    TakeOperationInv(s, request.key, request.wantsRelease);
    var (t, op) := TakeOperation(s, request.key, request.wantsRelease);
    assert [op] + t.deferred == [op];
    assert t.logs.handed + op.items + ItemsOf(t.deferred) + t.order
        == t.logs.handed + ItemsOf(t.deferred) + op.items + t.order;
    DeliverInv(t, op, None);
  }

  lemma PublishEndsInv(s: State)
    requires Inv(s) && InDelivery(s) && s.drainer.flight.value.Publishing?
    ensures Inv(PublishEnds(s))
  {
  }

  lemma PublishCancelledInv(s: State)
    requires Inv(s) && InDelivery(s) && s.drainer.flight.value.Publishing?
    ensures Inv(PublishCancelled(s))
  {
    var op := s.drainer.flight.value.operation;
    if op.release.Some? {
      var back := Delivery([], op.release);
      assert ([back] + s.deferred)[1..] == s.deferred;
      assert Ids(s.logs.handed) + Ids(back.items) == Ids(s.logs.handed);
      assert Pipe(PublishCancelled(s)) == Pipe(s);
    }
  }

  lemma ReleaseEndsInv(s: State, cancelled: bool)
    requires Inv(s) && InDelivery(s) && s.drainer.flight.value.Releasing?
    ensures Inv(ReleaseEnds(s, cancelled))
  {
  }

  lemma StepKeepsInv(s: State, a: Action)
    requires Inv(s) && Enabled(s, a)
    ensures Inv(Apply(s, a))
  {
    match a
    case DoAdd(key, event, channels, reentrant) => AddInv(s, key, event, channels, reentrant);
    case DoReentrantDispatch(key, wantsRelease) => ReentrantDispatchInv(s, key, wantsRelease);
    case DoLock(request) => LockInv(s, request);
    case DoContinue => ContinueInv(s);
    case DoPublishEnds => PublishEndsInv(s);
    case DoPublishCancelled => PublishCancelledInv(s);
    case DoReleaseEnds(cancelled) => ReleaseEndsInv(s, cancelled);
  }
}
