/** Splitting an oversized batch event into payloads that fit a transport limit. */
module Chunking {
  import opened Wrappers

  // A queue event: whether its payload is a well-formed batch, the batch items with the recorded
  // count, and everything a rewritten copy keeps.
  datatype Event = Event(isBatch: bool, items: seq<int>, count: int, rest: int)

  datatype SplitError = LimitBelowOne | ItemTooLarge

  // `_replace_batch_items`
  function Replace(event: Event, items: seq<int>): Event {
    event.(items := items, count := |items|)
  }

  predicate Fits(event: Event, items: seq<int>, maxBytes: int, size: Event -> int) {
    size(Replace(event, items)) <= maxBytes
  }

  // A longer run of items never has a smaller payload.
  ghost predicate Monotone(event: Event, size: Event -> int) {
    forall items: seq<int>, i, j :: 0 <= i <= j <= |items| ==>
      size(Replace(event, items[i..j])) <= size(Replace(event, items))
  }

  // The payload sizes of the items themselves.
  function Weigh(items: seq<int>, weight: int -> nat): nat {
    if items == [] then 0 else weight(items[0]) + Weigh(items[1..], weight)
  }

  lemma {:induction false} WeighPart(items: seq<int>, i: nat, j: nat, weight: int -> nat)
    requires i <= j <= |items|
    ensures Weigh(items[i..j], weight) <= Weigh(items, weight)
    decreases |items|
  {
    if j > 0 {
      if i == 0 {
        assert items[0..j][1..] == items[1..][0..j - 1];
        WeighPart(items[1..], 0, j - 1, weight);
      } else {
        assert items[i..j] == items[1..][i - 1..j - 1];
        WeighPart(items[1..], i - 1, j - 1, weight);
      }
    }
  }

  /**
   The size of a JSON payload is of this kind: an envelope whose length does not fall as the count
   grows, and the items with what separates them.
   */
  lemma PayloadSizeIsMonotone(event: Event, size: Event -> int, envelope: nat -> nat, weight: int -> nat)
    requires forall m: nat, n: nat :: m <= n ==> envelope(m) <= envelope(n)
    requires forall items :: size(Event(event.isBatch, items, |items|, event.rest))
                          == envelope(|items|) + Weigh(items, weight)
    ensures Monotone(event, size)
  {
    forall items: seq<int>, i: nat, j: nat | i <= j <= |items|
      ensures size(Replace(event, items[i..j])) <= size(Replace(event, items))
    {
      WeighPart(items, i, j, weight);
      assert Replace(event, items) == Event(event.isBatch, items, |items|, event.rest);
      assert Replace(event, items[i..j]) == Event(event.isBatch, items[i..j], j - i, event.rest);
    }
  }

  function Concat(runs: seq<seq<int>>): seq<int> {
    if runs == [] then [] else Concat(runs[..|runs| - 1]) + runs[|runs| - 1]
  }

  // A contiguous split into non-empty runs, each of which fits.
  ghost predicate IsSplit(event: Event, runs: seq<seq<int>>, items: seq<int>, maxBytes: int, size: Event -> int) {
    && Concat(runs) == items
    && (forall i :: 0 <= i < |runs| ==> runs[i] != [] && Fits(event, runs[i], maxBytes, size))
  }

  lemma ConcatSnoc(runs: seq<seq<int>>, run: seq<int>)
    ensures Concat(runs + [run]) == Concat(runs) + run
  {
  }

  // No split of `items` needs fewer runs than `closed + 1`, and none with that many leaves a
  // shorter last run than `open`.
  ghost predicate Ahead(event: Event, items: seq<int>, closed: nat, open: nat, maxBytes: int, size: Event -> int) {
    forall runs :: IsSplit(event, runs, items, maxBytes, size) && items != [] ==>
      && |runs| >= closed + 1
      && (|runs| == closed + 1 ==> |runs[|runs| - 1]| >= open)
  }

  // A split of one more item is a split of the items before it, with the last run cut by one.
  lemma Shorten(event: Event, runs: seq<seq<int>>, items: seq<int>, item: int, maxBytes: int, size: Event -> int)
    returns (shorter: seq<seq<int>>)
    requires IsSplit(event, runs, items + [item], maxBytes, size) && Monotone(event, size)
    ensures runs != []
    ensures var last := runs[|runs| - 1];
            && last[|last| - 1] == item
            && IsSplit(event, shorter, items, maxBytes, size)
            && (|last| == 1 ==> |shorter| == |runs| - 1)
            && (|last| > 1 ==> |shorter| == |runs| && shorter[|runs| - 1] == last[..|last| - 1])
  {
    var n := |runs| - 1;
    var front, last := runs[..n], runs[n];
    assert runs == front + [last];
    var all := items + [item];
    assert all == Concat(front) + last;
    assert last[|last| - 1] == all[|all| - 1] == item;
    var cut := last[..|last| - 1];
    assert items == all[..|items|] == Concat(front) + cut;
    if |last| == 1 {
      shorter := front;
    } else {
      shorter := front + [cut];
      ConcatSnoc(front, cut);
      assert Fits(event, last, maxBytes, size);
      assert cut == last[0..|last| - 1];
    }
  }

  // The last run of a split is the end of what it splits.
  lemma LastRunIsSuffix(event: Event, runs: seq<seq<int>>, items: seq<int>, maxBytes: int, size: Event -> int)
    requires IsSplit(event, runs, items, maxBytes, size) && runs != []
    ensures var last := runs[|runs| - 1]; |last| <= |items| && last == items[|items| - |last|..]
  {
  }

  // A split of one more item against the open run: its last run is long enough or there are more runs.
  lemma OneMoreItem(event: Event, runs: seq<seq<int>>, shorter: seq<seq<int>>, items: seq<int>, current: seq<int>,
                    item: int, closed: nat, maxBytes: int, size: Event -> int)
    requires Monotone(event, size) && IsSplit(event, runs, items + [item], maxBytes, size) && runs != []
    requires current != [] && |current| <= |items| && items[|items| - |current|..] == current
    requires var last := runs[|runs| - 1]; |last| > 1 && |shorter| == |runs| && shorter[|runs| - 1] == last[..|last| - 1]
    requires |shorter| == closed + 1 && |shorter[closed]| >= |current|
    ensures Fits(event, current + [item], maxBytes, size) && |runs[closed]| >= |current| + 1
  {
    LastRunIsSuffix(event, runs, items + [item], maxBytes, size);
    var last := runs[closed];
    assert last[|last| - |current| - 1..|last|] == current + [item];
    assert Fits(event, last, maxBytes, size);
  }

  lemma OneRunAhead(event: Event, runs: seq<seq<int>>, items: seq<int>, current: seq<int>, item: int, closed: nat,
                    maxBytes: int, size: Event -> int)
    requires Monotone(event, size) && IsSplit(event, runs, items + [item], maxBytes, size)
    requires Ahead(event, items, closed, |current|, maxBytes, size)
    requires |current| <= |items| && items[|items| - |current|..] == current
    requires current == [] ==> items == [] && closed == 0
    ensures |runs| >= closed + 1 && |runs[|runs| - 1]| >= 1
    ensures Fits(event, current + [item], maxBytes, size) && |runs| == closed + 1 ==>
              |runs[closed]| >= |current| + 1
    ensures !Fits(event, current + [item], maxBytes, size) && current != [] ==> |runs| >= closed + 2
  {
    hide Monotone, Fits, Concat;
    var shorter := Shorten(event, runs, items, item, maxBytes, size);
    if current != [] && |runs[|runs| - 1]| > 1 && |shorter| == closed + 1 {
      OneMoreItem(event, runs, shorter, items, current, item, closed, maxBytes, size);
    }
  }

  // The greedy step stays ahead: extend when the run still fits, cut when it does not.
  lemma AheadStep(event: Event, done: seq<int>, current: seq<int>, item: int, closed: nat,
                  maxBytes: int, size: Event -> int)
    requires Monotone(event, size)
    requires Ahead(event, done + current, closed, |current|, maxBytes, size)
    requires current == [] ==> done == [] && closed == 0
    ensures Fits(event, current + [item], maxBytes, size) ==>
              Ahead(event, done + (current + [item]), closed, |current| + 1, maxBytes, size)
    ensures !Fits(event, current + [item], maxBytes, size) && current != [] ==>
              Ahead(event, done + current + [item], closed + 1, 1, maxBytes, size)
  {
    hide Monotone, Fits, IsSplit;
    var items := done + current;
    assert done + (current + [item]) == items + [item];
    assert items[|items| - |current|..] == current;
    forall runs | IsSplit(event, runs, items + [item], maxBytes, size)
      ensures |runs| >= closed + 1 && |runs[|runs| - 1]| >= 1
      ensures Fits(event, current + [item], maxBytes, size) && |runs| == closed + 1 ==>
                |runs[closed]| >= |current| + 1
      ensures !Fits(event, current + [item], maxBytes, size) && current != [] ==> |runs| >= closed + 2
    {
      OneRunAhead(event, runs, items, current, item, closed, maxBytes, size);
    }
  }

  function RunsOf(chunks: seq<Event>): seq<seq<int>> {
    seq(|chunks|, i requires 0 <= i < |chunks| => chunks[i].items)
  }

  // Where the splitter's loop stands after the items of `done`.
  ghost predicate Progress(event: Event, done: seq<int>, chunks: seq<Event>, current: seq<int>,
                           maxBytes: int, size: Event -> int)
  {
    && Concat(RunsOf(chunks)) + current == done
    && (forall k :: 0 <= k < |chunks| ==>
          && chunks[k] == Replace(event, chunks[k].items)
          && chunks[k].items != []
          && Fits(event, chunks[k].items, maxBytes, size))
    && (current == [] ==> done == [] && chunks == [])
    && (current != [] ==> Fits(event, current, maxBytes, size))
    && (Monotone(event, size) ==> Ahead(event, done, |chunks|, |current|, maxBytes, size))
    && (Monotone(event, size) ==> forall k :: 0 <= k < |done| ==> Fits(event, [done[k]], maxBytes, size))
  }

  lemma Extend(event: Event, done: seq<int>, chunks: seq<Event>, current: seq<int>, item: int,
               maxBytes: int, size: Event -> int)
    requires Progress(event, done, chunks, current, maxBytes, size)
    requires Fits(event, current + [item], maxBytes, size)
    ensures Progress(event, done + [item], chunks, current + [item], maxBytes, size)
  {
    var closed := Concat(RunsOf(chunks));
    assert closed + (current + [item]) == done + [item];
    if Monotone(event, size) {
      AheadStep(event, closed, current, item, |chunks|, maxBytes, size);
      var longer := current + [item];
      assert longer[|current|..|current| + 1] == [item];
    }
  }

  lemma Cut(event: Event, done: seq<int>, chunks: seq<Event>, current: seq<int>, item: int,
            maxBytes: int, size: Event -> int)
    requires Progress(event, done, chunks, current, maxBytes, size) && current != []
    requires !Fits(event, current + [item], maxBytes, size) && Fits(event, [item], maxBytes, size)
    ensures Progress(event, done + [item], chunks + [Replace(event, current)], [item], maxBytes, size)
  {
    var closed := Concat(RunsOf(chunks));
    assert RunsOf(chunks + [Replace(event, current)]) == RunsOf(chunks) + [current];
    ConcatSnoc(RunsOf(chunks), current);
    if Monotone(event, size) {
      AheadStep(event, closed, current, item, |chunks|, maxBytes, size);
    }
  }

  // Closing the last run completes a split, and a shortest one when sizes are monotone.
  lemma Finish(event: Event, items: seq<int>, chunks: seq<Event>, current: seq<int>, maxBytes: int, size: Event -> int)
    requires Progress(event, items, chunks, current, maxBytes, size) && current != []
    ensures var all := chunks + [Replace(event, current)];
            && IsSplit(event, RunsOf(all), items, maxBytes, size)
            && (forall i :: 0 <= i < |all| ==> all[i] == Replace(event, all[i].items))
            && (Monotone(event, size) ==>
                  forall runs :: IsSplit(event, runs, items, maxBytes, size) ==> |all| <= |runs|)
  {
    assert RunsOf(chunks + [Replace(event, current)]) == RunsOf(chunks) + [current];
    ConcatSnoc(RunsOf(chunks), current);
  }

  // The greedy pass from an open run: the runs it will close, or its failure.
  function Greedy(event: Event, items: seq<int>, current: seq<int>, maxBytes: int, size: Event -> int)
    : Result<seq<Event>, SplitError>
  {
    if items == [] then Success(if current == [] then [] else [Replace(event, current)])
    else if Fits(event, current + [items[0]], maxBytes, size) then
      Greedy(event, items[1..], current + [items[0]], maxBytes, size)
    else if !Fits(event, [items[0]], maxBytes, size) then Failure(ItemTooLarge)
    else
      match Greedy(event, items[1..], [items[0]], maxBytes, size)
      case Success(later) => Success((if current == [] then [] else [Replace(event, current)]) + later)
      case Failure(error) => Failure(error)
  }

  // The value `SplitEventBatchBySize` returns.
  function Split(event: Event, maxBytes: int, size: Event -> int): Result<seq<Event>, SplitError> {
    if maxBytes < 1 then Failure(LimitBelowOne)
    else if !NeedsSplit(event, maxBytes, size) then Success([event])
    else Greedy(event, event.items, [], maxBytes, size)
  }

  function Prepend(chunks: seq<Event>, r: Result<seq<Event>, SplitError>): Result<seq<Event>, SplitError> {
    match r
    case Success(later) => Success(chunks + later)
    case Failure(error) => r
  }

  lemma GreedyCut(event: Event, items: seq<int>, current: seq<int>, chunks: seq<Event>, maxBytes: int, size: Event -> int)
    requires items != [] && current != []
    requires !Fits(event, current + [items[0]], maxBytes, size) && Fits(event, [items[0]], maxBytes, size)
    ensures Prepend(chunks, Greedy(event, items, current, maxBytes, size))
         == Prepend(chunks + [Replace(event, current)], Greedy(event, items[1..], [items[0]], maxBytes, size))
  {
    var later := Greedy(event, items[1..], [items[0]], maxBytes, size);
    if later.Success? {
      assert chunks + ([Replace(event, current)] + later.value) == chunks + [Replace(event, current)] + later.value;
    }
  }

  predicate NeedsSplit(event: Event, maxBytes: int, size: Event -> int) {
    maxBytes >= 1 && event.isBatch && size(event) > maxBytes && event.items != []
  }

  ghost predicate SomeItemTooLarge(event: Event, maxBytes: int, size: Event -> int) {
    exists i :: 0 <= i < |event.items| && !Fits(event, [event.items[i]], maxBytes, size)
  }

  lemma ChunksOfSplit(event: Event, chunks: seq<Event>, items: seq<int>, maxBytes: int, size: Event -> int)
    requires event.isBatch && IsSplit(event, RunsOf(chunks), items, maxBytes, size)
    requires forall i :: 0 <= i < |chunks| ==> chunks[i] == Replace(event, chunks[i].items)
    ensures Concat(RunsOf(chunks)) == items
    ensures forall i :: 0 <= i < |chunks| ==>
              && chunks[i].items != [] && chunks[i].count == |chunks[i].items|
              && chunks[i].isBatch && chunks[i].rest == event.rest
              && size(chunks[i]) <= maxBytes
  {
    assert forall i :: 0 <= i < |chunks| ==> RunsOf(chunks)[i] == chunks[i].items;
  }

  // The greedy pass at item `i`: the open run takes it, or it fits nowhere.
  lemma GreedyTakes(event: Event, items: seq<int>, i: nat, current: seq<int>, maxBytes: int, size: Event -> int)
    requires i < |items| && Fits(event, current + [items[i]], maxBytes, size)
    ensures Greedy(event, items[i..], current, maxBytes, size)
         == Greedy(event, items[i + 1..], current + [items[i]], maxBytes, size)
  {
    assert items[i..][1..] == items[i + 1..];
  }

  lemma GreedyEnds(event: Event, current: seq<int>, maxBytes: int, size: Event -> int)
    ensures Greedy(event, [], current, maxBytes, size) == Success(if current == [] then [] else [Replace(event, current)])
  {
  }

  lemma GreedyFails(event: Event, i: nat, current: seq<int>, maxBytes: int, size: Event -> int)
    requires event.isBatch && i < |event.items| && !Fits(event, [event.items[i]], maxBytes, size)
    requires !Fits(event, current + [event.items[i]], maxBytes, size)
    ensures Greedy(event, event.items[i..], current, maxBytes, size) == Failure(ItemTooLarge)
    ensures SomeItemTooLarge(event, maxBytes, size)
    ensures exists k :: 0 <= k < |event.items| && size(Event(true, [event.items[k]], 1, event.rest)) > maxBytes
  {
    assert Replace(event, [event.items[i]]) == Event(true, [event.items[i]], 1, event.rest);
  }

  /**
   `split_event_batch_by_size`: the event itself when it needs no split, and otherwise complete
   events that carry its items in order, none empty, each within the limit and with its own count.
   When size grows with the run of items, no other contiguous split has fewer parts, and the only
   failure is an item that does not fit alone.
   */
  method SplitEventBatchBySize(event: Event, maxBytes: int, size: Event -> int)
    returns (r: Result<seq<Event>, SplitError>)
    ensures r == Split(event, maxBytes, size)
    ensures r == Failure(LimitBelowOne) <==> maxBytes < 1
    ensures maxBytes >= 1 && !NeedsSplit(event, maxBytes, size) ==> r == Success([event])
    ensures NeedsSplit(event, maxBytes, size) && r.Success? ==>
              && IsSplit(event, RunsOf(r.value), event.items, maxBytes, size)
              && (forall i :: 0 <= i < |r.value| ==> r.value[i] == Replace(event, r.value[i].items))
    ensures NeedsSplit(event, maxBytes, size) && r.Success? && Monotone(event, size) ==>
              forall runs :: IsSplit(event, runs, event.items, maxBytes, size) ==> |r.value| <= |runs|
    ensures r.Success? && event.isBatch && event.items != [] && size(event) > maxBytes ==>
              && Concat(RunsOf(r.value)) == event.items
              && forall i :: 0 <= i < |r.value| ==>
                   && r.value[i].items != [] && r.value[i].count == |r.value[i].items|
                   && r.value[i].isBatch && r.value[i].rest == event.rest
                   && size(r.value[i]) <= maxBytes
    ensures maxBytes >= 1 && (!event.isBatch || event.items == [] || size(event) <= maxBytes) ==> r == Success([event])
    ensures maxBytes >= 1 && event.isBatch && size(event) > maxBytes && r.Failure? ==>
              exists i :: 0 <= i < |event.items| && size(Event(true, [event.items[i]], 1, event.rest)) > maxBytes
    ensures NeedsSplit(event, maxBytes, size) && r.Failure? ==> SomeItemTooLarge(event, maxBytes, size)
    ensures NeedsSplit(event, maxBytes, size) && Monotone(event, size) ==>
              (r.Failure? <==> SomeItemTooLarge(event, maxBytes, size))
  {
    if maxBytes < 1 {
      return Failure(LimitBelowOne);
    }
    if !event.isBatch || size(event) <= maxBytes {
      return Success([event]);
    }
    hide IsSplit, Monotone, Ahead, Concat, Progress, RunsOf, Greedy, SomeItemTooLarge;
    var items := event.items;
    var chunks: seq<Event> := [];
    var current: seq<int> := [];
    ProgressStarts(event, maxBytes, size);
    assert items[0..] == items;
    ghost var whole := Greedy(event, items, [], maxBytes, size);
    assert whole.Success? ==> [] + whole.value == whole.value;
    var i := 0;
    while i < |items|
      invariant 0 <= i <= |items|
      invariant Progress(event, items[..i], chunks, current, maxBytes, size)
      invariant Prepend(chunks, Greedy(event, items[i..], current, maxBytes, size)) == whole
    {
      var item := items[i];
      assert items[..i + 1] == items[..i] + [item];
      var candidate := current + [item];
      if Fits(event, candidate, maxBytes, size) {
        Extend(event, items[..i], chunks, current, item, maxBytes, size);
        GreedyTakes(event, items, i, current, maxBytes, size);
        current := candidate;
      } else {
        if !Fits(event, [item], maxBytes, size) {
          GreedyFails(event, i, current, maxBytes, size);
          return Failure(ItemTooLarge);
        }
        OpenRun(event, items[..i], chunks, current, maxBytes, size);
        assert current == [] ==> candidate == [item];
        Cut(event, items[..i], chunks, current, item, maxBytes, size);
        GreedyCut(event, items[i..], current, chunks, maxBytes, size);
        assert items[i..][1..] == items[i + 1..];
        chunks := chunks + [Replace(event, current)];
        current := [item];
      }
      i := i + 1;
    }
    assert items[..i] == items;
    OpenRun(event, items, chunks, current, maxBytes, size);
    GreedyEnds(event, current, maxBytes, size);
    if current != [] {
      Finish(event, items, chunks, current, maxBytes, size);
      chunks := chunks + [Replace(event, current)];
      ChunksOfSplit(event, chunks, items, maxBytes, size);
    }
    if chunks == [] {
      chunks := [event];
    }
    return Success(chunks);
  }

  /**
   What counts as a split, on the events themselves: runs of the items that concatenate to them, each
   non-empty and, as a complete event with its own count, within the limit.
   */
  lemma SplitMeans(event: Event, runs: seq<seq<int>>, items: seq<int>, maxBytes: int, size: Event -> int)
    ensures IsSplit(event, runs, items, maxBytes, size)
       <==> Concat(runs) == items
            && forall i :: 0 <= i < |runs| ==>
                 runs[i] != [] && size(Event(event.isBatch, runs[i], |runs[i]|, event.rest)) <= maxBytes
  {
  }

  // Concatenation in the usual order.
  lemma {:induction false} ConcatAppends(a: seq<seq<int>>, b: seq<seq<int>>)
    ensures Concat(a + b) == Concat(a) + Concat(b)
    ensures |a| == 1 ==> Concat(a) == a[0]
  {
    if |a| == 1 { assert a == [] + [a[0]]; ConcatSnoc([], a[0]); }
    if b == [] {
      assert a + b == a;
    } else {
      var front, last := b[..|b| - 1], b[|b| - 1];
      assert a + b == (a + front) + [last] && b == front + [last];
      ConcatSnoc(a + front, last);
      ConcatSnoc(front, last);
      hide Concat;
      ConcatAppends(a, front);
      assert (Concat(a) + Concat(front)) + last == Concat(a) + (Concat(front) + last);
    }
  }

  // Before the first item no run is open; afterwards one always is.
  lemma OpenRun(event: Event, done: seq<int>, chunks: seq<Event>, current: seq<int>, maxBytes: int, size: Event -> int)
    requires Progress(event, done, chunks, current, maxBytes, size)
    ensures current == [] ==> done == [] && chunks == []
    ensures Monotone(event, size) ==> forall k :: 0 <= k < |done| ==> Fits(event, [done[k]], maxBytes, size)
  {
  }

  lemma ProgressStarts(event: Event, maxBytes: int, size: Event -> int)
    ensures Progress(event, event.items[..0], [], [], maxBytes, size)
  {
  }
}
