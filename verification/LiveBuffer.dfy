/**
 `LiveEventBuffer` itself: the queue with its per-key index, and the methods as stretches of code
 between two awaits. Each is tied to a step of `LiveProtocol`, whose runs `LiveTheorems` speaks of.
 */
module LiveBuffer {
  import opened Wrappers
  import opened LiveProtocol
  import opened LiveInvariant

  // The index holds, for each key that occurs, exactly its events in queue order.
  ghost predicate IndexAgrees(order: seq<Item>, index: map<int, seq<Item>>) {
    forall k :: if k in index then index[k] == OfKey(order, k) && index[k] != [] else OfKey(order, k) == []
  }

  // Dataclass equality ignores identity.
  predicate SameValue(a: Item, b: Item) {
    a.key == b.key && a.event == b.event && a.channels == b.channels
  }

  ghost predicate IdsIdentify(items: seq<Item>) {
    forall x, y :: x in items && y in items && x.id == y.id ==> x == y
  }

  // What `items.remove(item)` does to a list, by value.
  function RemoveFirstEqual(items: seq<Item>, item: Item): seq<Item> {
    if items == [] then []
    else if SameValue(items[0], item) then items[1..]
    else [items[0]] + RemoveFirstEqual(items[1..], item)
  }

  lemma AppendAgrees(order: seq<Item>, index: map<int, seq<Item>>, item: Item)
    requires IndexAgrees(order, index)
    ensures IndexAgrees(order + [item],
                        index[item.key := (if item.key in index then index[item.key] else []) + [item]])
  {
    forall k ensures OfKey(order + [item], k) == OfKey(order, k) + if item.key == k then [item] else [] {
      OfKeyConcat(order, [item], k);
    }
  }

  // The list removal by equality takes out the very item that left the queue: it is the first of
  // its bucket, so nothing equal to it stands before it.
  lemma RemoveAgrees(order: seq<Item>, index: map<int, seq<Item>>)
    requires order != [] && IndexAgrees(order, index)
    ensures var key := order[0].key;
            && key in index
            && RemoveFirstEqual(index[key], order[0]) == index[key][1..] == OfKey(order[1..], key)
            && IndexAgrees(order[1..], if |index[key]| == 1 then index - {key} else index[key := index[key][1..]])
  {
  }

  lemma DrainAgrees(order: seq<Item>, index: map<int, seq<Item>>, key: int)
    requires IndexAgrees(order, index)
    ensures IndexAgrees(NotOfKey(order, key), index - {key})
  {
    forall k ensures k != key ==> OfKey(NotOfKey(order, key), k) == OfKey(order, k)
             ensures OfKey(NotOfKey(order, key), key) == [] {
      OfKeySplit(order, key, k);
      OfKeySplit(order, key, key);
    }
  }

  // A keyed drain by identity keeps exactly the events of the other keys.
  function WithoutIds(items: seq<Item>, ids: set<nat>): seq<Item> {
    if items == [] then []
    else (if items[0].id in ids then [] else [items[0]]) + WithoutIds(items[1..], ids)
  }

  lemma {:induction false} WithoutIdsIsNotOfKey(items: seq<Item>, ids: set<nat>, key: int)
    requires forall x :: x in items ==> (x.id in ids <==> x.key == key)
    ensures WithoutIds(items, ids) == NotOfKey(items, key)
  {
    if items != [] { WithoutIdsIsNotOfKey(items[1..], ids, key); }
  }

  lemma KeyIds(items: seq<Item>, key: int)
    requires IdsIdentify(items)
    ensures forall x :: x in items ==> (x.id in Ids(OfKey(items, key)) <==> x.key == key)
  {
    forall x | x in items ensures x.id in Ids(OfKey(items, key)) <==> x.key == key {
      OfKeyMember(items, key, x);
      forall y | y in OfKey(items, key) ensures y in items && y.key == key {
        OfKeyMember(items, key, y);
      }
    }
  }

  method KeepOthers(items: seq<Item>, ids: set<nat>) returns (kept: seq<Item>)
    ensures kept == WithoutIds(items, ids)
  {
    kept := [];
    var i := 0;
    while i < |items|
      invariant 0 <= i <= |items|
      invariant kept + WithoutIds(items[i..], ids) == WithoutIds(items, ids)
    {
      assert items[i..][1..] == items[i + 1..];
      if items[i].id !in ids {
        kept := kept + [items[i]];
      }
      i := i + 1;
    }
  }

  class LiveEventBuffer {
    const cfg: Config
    var order: seq<Item>
    var index: map<int, seq<Item>>           // `_pending`
    var deferred: seq<Delivery>
    var deferredSize: int
    var drainer: Drainer
    var nextId: nat                          // identity of the next accepted event
    var nextRelease: nat
    ghost var logs: Logs

    ghost function View(): State
      reads this
    {
      State(cfg, order, deferred, deferredSize, drainer, logs)
    }

    ghost predicate Valid()
      reads this
    {
      && Inv(View())
      && IndexAgrees(order, index)
      && nextId == |logs.accepted|
      && nextRelease == logs.issued
    }

    constructor (cfg: Config)
      requires cfg.Valid()
      ensures Valid() && View() == Init(cfg)
      ensures order == [] && index == map[] && deferred == [] && deferredSize == 0 && drainer == Unlocked
    {
      this.cfg := cfg;
      order, index, deferred, deferredSize := [], map[], [], 0;
      drainer, nextId, nextRelease := Unlocked, 0, 0;
      logs := Logs([], {}, [], [], 0, map[]);
      new;
      InitInv(cfg);
    }

    // ------------------------------------------------------------ the indexed queue

    method Append(item: Item)
      requires IndexAgrees(order, index)
      modifies this`order, this`index
      ensures order == old(order) + [item] && IndexAgrees(order, index)
    {
      AppendAgrees(order, index, item);
      order := order + [item];
      index := index[item.key := (if item.key in index then index[item.key] else []) + [item]];
    }

    // `_remove_from_pending`: the bucket loses the first element equal to `item`, by value.
    method RemoveFromIndex(item: Item)
      modifies this`index
      ensures item.key !in old(index) ==> index == old(index)
      ensures item.key in old(index) ==>
                var rest := RemoveFirstEqual(old(index)[item.key], item);
                index == if rest == [] then old(index) - {item.key} else old(index)[item.key := rest]
    {
      if item.key !in index {
        return;
      }
      var items := index[item.key];
      var i := 0;
      while i < |items| && !SameValue(items[i], item)
        invariant 0 <= i <= |items|
        invariant RemoveFirstEqual(items, item) == items[..i] + RemoveFirstEqual(items[i..], item)
      {
        assert items[i..][1..] == items[i + 1..];
        i := i + 1;
      }
      if i < |items| {
        assert items[i..][1..] == items[i + 1..];
        items := items[..i] + items[i + 1..];
      } else {
        assert items[..i] + RemoveFirstEqual(items[i..], item) == items;
      }
      index := if items == [] then index - {item.key} else index[item.key := items];
    }

    method DropOldest()
      requires order != [] && IndexAgrees(order, index)
      modifies this`order, this`index
      ensures order == old(order)[1..] && IndexAgrees(order, index)
    {
      RemoveAgrees(order, index);
      var item := order[0];
      order := order[1..];
      RemoveFromIndex(item);
    }

    method Drain(key: Option<int>) returns (items: seq<Item>)
      requires IndexAgrees(order, index) && IdsIdentify(order)
      modifies this`order, this`index
      ensures items == Matching(old(order), key) && order == Remaining(old(order), key)
      ensures IndexAgrees(order, index)
    {
      if key.None? {
        items := order;
        order, index := [], map[];
        return;
      }
      DrainAgrees(order, index, key.value);
      if key.value !in index {
        NothingOfKey(order, key.value);
        return [];
      }
      items := index[key.value];
      KeyIds(order, key.value);
      WithoutIdsIsNotOfKey(order, Ids(items), key.value);
      index := index - {key.value};
      hide IndexAgrees, OfKey, NotOfKey;
      order := KeepOthers(order, set x | x in items :: x.id);
    }

    // ------------------------------------------------------------ add

    // One pass of `add` through its condition, up to its flush or its next wait.
    method AddOnce(key: int, event: int, channels: seq<int>, reentrant: bool) returns (outcome: AddOutcome)
      requires Valid() && (reentrant ==> InDelivery(View()))
      modifies this
      ensures Valid() && outcome == AddDecision(old(View()), reentrant)
      ensures View() == Add(old(View()), key, event, channels, reentrant)
    {
      AddInv(View(), key, event, channels, reentrant);
      hide Inv, IndexAgrees;
      if |order| >= cfg.maxPending {
        match cfg.overflow {
          case DropNewest => return Dropped;
          case RaiseError => return Full;
          case Block => return if reentrant then Full else Waiting;
          case DropOldest =>
            logs := logs.(dropped := logs.dropped + {order[0].id});
            DropOldest();
        }
      }
      if reentrant && |order| + 1 >= cfg.batchSize && deferredSize + |order| + 1 > cfg.maxPending {
        return Full;
      }
      var item := Item(nextId, key, event, channels);
      logs := logs.(accepted := logs.accepted + [item]);
      Append(item);
      nextId := nextId + 1;
      outcome := Accepted(|order| >= cfg.batchSize);
    }

    // ------------------------------------------------------------ dispatch

    method Take(key: Option<int>, wantsRelease: bool) returns (op: Delivery)
      requires Inv(View()) && IndexAgrees(order, index) && nextRelease == logs.issued
      modifies this`order, this`index, this`logs, this`nextRelease
      ensures (View(), op) == TakeOperation(old(View()), key, wantsRelease)
      ensures IndexAgrees(order, index) && nextRelease == logs.issued && logs.accepted == old(logs.accepted)
    {
      QueueIdsIdentify(View());
      hide Inv, IndexAgrees;
      ghost var s := View();
      var release: Option<Release> := None;
      if wantsRelease && key.Some? {
        release := Some(Release(nextRelease, key.value));
        logs := logs.(issued := logs.issued + 1, owed := logs.owed[nextRelease := Owed(s, key.value)]);
        nextRelease := nextRelease + 1;
      }
      var items := Drain(key);
      op := Delivery(items, release);
    }

    // `_dispatch` called from inside a delivery: queue the work, within the budget.
    method DispatchReentrant(key: Option<int>, wantsRelease: bool) returns (full: bool)
      requires Valid() && InDelivery(View()) && (wantsRelease ==> key.Some?)
      modifies this
      ensures Valid() && View() == ReentrantDispatch(old(View()), key, wantsRelease)
      ensures full <==> !NothingToDispatch(old(View()), key, wantsRelease) && !RoomForOperation(old(View()), key)
    {
      ReentrantDispatchInv(View(), key, wantsRelease);
      assert key.Some? ==> (key.value in index <==> OfKey(order, key.value) != []);
      assert key.Some? && key.value in index ==> index[key.value] == OfKey(order, key.value);
      hide Inv, IndexAgrees, Owed, OfKey, NotOfKey, TakeOperation;
      var count := match key
                   case None => |order|
                   case Some(k) => if k in index then |index[k]| else 0;
      if count == 0 && !wantsRelease {
        return false;
      }
      if deferredSize + (if count == 0 then 1 else count) > cfg.maxPending {
        return true;
      }
      var op := Take(key, wantsRelease);
      deferred := deferred + [op];
      deferredSize := deferredSize + op.Size();
      full := false;
    }

    // `_deliver` up to its first await.
    method StartDelivery(op: Delivery, request: Option<Request>)
      modifies this`deferredSize, this`drainer, this`logs
      ensures View() == Deliver(old(View()), op, request)
      ensures logs.accepted == old(logs.accepted) && logs.issued == old(logs.issued)
    {
      if op.items != [] {
        if op.release.Some? {
          deferredSize := deferredSize + 1;
        }
        logs := logs.(handed := logs.handed + op.items);
        drainer := Draining(request, Some(Publishing(op)));
      } else {
        StartRelease(op.release, request);
      }
    }

    method StartRelease(release: Option<Release>, request: Option<Request>)
      modifies this`drainer, this`logs
      ensures View() == BeginRelease(old(View()), release, request)
      ensures logs.accepted == old(logs.accepted) && logs.issued == old(logs.issued)
    {
      if release.Some? {
        logs := logs.(released := logs.released + [release.value.id]);
        drainer := Draining(request, Some(Releasing(release.value)));
      } else {
        drainer := Draining(request, None);
      }
    }

    // `_dispatch` of an ordinary caller obtains the drain lock.
    method TakeDrainLock(request: Request)
      requires Valid() && drainer.Unlocked? && (request.wantsRelease ==> request.key.Some?)
      modifies this
      ensures Valid() && View() == Lock(old(View()), request)
    {
      LockInv(View(), request);
      hide Inv, IndexAgrees;
      drainer := Draining(Some(request), None);
    }

    // The head of the deferred operations is delivered.
    method DeliverDeferred()
      requires deferred != [] && drainer.Draining?
      modifies this`deferred, this`deferredSize, this`drainer, this`logs
      ensures View() == Deliver(old(View()).(deferred := old(deferred)[1..],
                                             deferredSize := old(deferredSize) - old(deferred)[0].Size()),
                                old(deferred)[0], old(drainer).request)
      ensures logs.accepted == old(logs.accepted) && logs.issued == old(logs.issued)
    {
      hide Deliver;
      var op := deferred[0];
      deferred := deferred[1..];
      deferredSize := deferredSize - op.Size();
      StartDelivery(op, drainer.request);
    }

    // The dispatch drains and delivers what it was called for.
    method DeliverOwn(request: Request)
      requires Inv(View()) && IndexAgrees(order, index) && nextRelease == logs.issued
      modifies this
      ensures var (t, op) := TakeOperation(old(View()), request.key, request.wantsRelease); View() == Deliver(t, op, None)
      ensures IndexAgrees(order, index) && nextRelease == logs.issued && logs.accepted == old(logs.accepted)
      ensures nextId == old(nextId)
    {
      hide Deliver, TakeOperation, Inv, IndexAgrees;
      var op := Take(request.key, request.wantsRelease);
      StartDelivery(op, None);
    }

    // The dispatch that owns the drain lock runs on until it awaits again or frees the lock.
    method RunOn()
      requires Valid() && drainer.Draining? && drainer.flight.None?
      modifies this
      ensures Valid() && View() == Continue(old(View()))
    {
      ContinueInv(View());
      hide Inv, IndexAgrees, TakeOperation, Deliver;
      if deferred != [] {
        DeliverDeferred();
      } else if drainer.request.Some? {
        DeliverOwn(drainer.request.value);
      } else {
        drainer := Unlocked;
      }
    }

    // The awaited publish returned or raised an ordinary error.
    method AfterPublish()
      requires Valid() && InDelivery(View()) && drainer.flight.value.Publishing?
      modifies this
      ensures Valid() && View() == PublishEnds(old(View()))
    {
      PublishEndsInv(View());
      hide Inv, IndexAgrees;
      var op, request := drainer.flight.value.operation, drainer.request;
      if op.release.Some? {
        deferredSize := deferredSize - 1;
      }
      StartRelease(op.release, request);
    }

    // The awaited publish was cancelled: the release goes back to the front.
    method AfterCancelledPublish()
      requires Valid() && InDelivery(View()) && drainer.flight.value.Publishing?
      modifies this
      ensures Valid() && View() == PublishCancelled(old(View()))
    {
      PublishCancelledInv(View());
      hide Inv, IndexAgrees;
      var op := drainer.flight.value.operation;
      if op.release.Some? {
        deferred := [Delivery([], op.release)] + deferred;
      }
      drainer := Unlocked;
    }

    // The awaited release returned, raised or was cancelled.
    method AfterRelease(cancelled: bool)
      requires Valid() && InDelivery(View()) && drainer.flight.value.Releasing?
      modifies this
      ensures Valid() && View() == ReleaseEnds(old(View()), cancelled)
    {
      ReleaseEndsInv(View(), cancelled);
      hide Inv, IndexAgrees;
      drainer := if cancelled then Unlocked else Draining(drainer.request, None);
    }
  }

  lemma {:induction false} NothingOfKey(items: seq<Item>, key: int)
    requires OfKey(items, key) == []
    ensures NotOfKey(items, key) == items
  {
    if items != [] { NothingOfKey(items[1..], key); }
  }

  lemma QueueIdsIdentify(s: State)
    requires Inv(s)
    ensures IdsIdentify(s.order)
  {
    forall x, y | x in s.order && y in s.order && x.id == y.id ensures x == y {
      PipeMembers(s, x);
      PipeMembers(s, y);
    }
  }
}
