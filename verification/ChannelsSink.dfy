/** Publishing a batch of events to channels: grouping by channel tuple on top of chunking. */
module ChannelsSink {
  import opened Wrappers
  import opened Chunking

  type Channels = seq<int>

  // A publication: one channel tuple and the payloads sent to it together.
  datatype Group = Group(channels: Channels, events: seq<Event>)

  datatype Sink = Sink(maxBytes: Option<int>, size: Event -> int)

  // `_event_chunks`
  function EventChunks(sink: Sink, event: Event): Result<seq<Event>, SplitError> {
    if sink.maxBytes.None? then Success([event]) else Split(event, sink.maxBytes.value, sink.size)
  }

  predicate Splittable(sink: Sink, event: Event) {
    EventChunks(sink, event).Success?
  }

  // The payloads of one event, if it can be sent at all.
  function Payloads(sink: Sink, event: Event): seq<Event> {
    match EventChunks(sink, event)
    case Success(chunks) => chunks
    case Failure(_) => []
  }

  // All payloads of the batch addressed to one channel tuple, in batch order.
  function PayloadsFor(sink: Sink, batch: seq<(Event, Channels)>, channels: Channels): seq<Event> {
    if batch == [] then []
    else
      var last := batch[|batch| - 1];
      PayloadsFor(sink, batch[..|batch| - 1], channels)
      + if last.1 == channels then Payloads(sink, last.0) else []
  }

  // The channel tuples of the batch, each once, by first occurrence.
  function ChannelsOf(batch: seq<(Event, Channels)>): seq<Channels> {
    if batch == [] then []
    else
      var front := ChannelsOf(batch[..|batch| - 1]);
      var channels := batch[|batch| - 1].1;
      if channels in front then front else front + [channels]
  }

  lemma {:induction false} ChannelsDistinct(batch: seq<(Event, Channels)>)
    ensures forall i, j :: 0 <= i < j < |ChannelsOf(batch)| ==> ChannelsOf(batch)[i] != ChannelsOf(batch)[j]
    ensures forall c :: c in ChannelsOf(batch) <==> exists i :: 0 <= i < |batch| && batch[i].1 == c
  {
    if batch != [] {
      var front := batch[..|batch| - 1];
      ChannelsDistinct(front);
      forall c | exists i :: 0 <= i < |batch| && batch[i].1 == c ensures c in ChannelsOf(batch) {
        var i :| 0 <= i < |batch| && batch[i].1 == c;
        if i < |front| { assert front[i].1 == c; }
      }
      forall c | c in ChannelsOf(batch) ensures exists i :: 0 <= i < |batch| && batch[i].1 == c {
        if c in ChannelsOf(front) {
          var i :| 0 <= i < |front| && front[i].1 == c;
          assert batch[i].1 == c;
        } else {
          assert batch[|batch| - 1].1 == c;
        }
      }
    }
  }

  // A dictionary of lists with its insertion order.
  datatype Groups = Groups(order: seq<Channels>, events: map<Channels, seq<Event>>)

  // `grouped.setdefault(channels, []).extend(chunks)`
  function Extend(g: Groups, channels: Channels, chunks: seq<Event>): Groups {
    if channels in g.events then g.(events := g.events[channels := g.events[channels] + chunks])
    else Groups(g.order + [channels], g.events[channels := chunks])
  }

  ghost predicate Grouped(sink: Sink, batch: seq<(Event, Channels)>, g: Groups) {
    && g.order == ChannelsOf(batch)
    && (forall c :: c in g.events <==> c in g.order)
    && (forall c :: c in g.events ==> g.events[c] == PayloadsFor(sink, batch, c))
    && (forall c :: c !in g.events ==> PayloadsFor(sink, batch, c) == [])
  }

  lemma GroupOneMore(sink: Sink, batch: seq<(Event, Channels)>, i: nat, g: Groups)
    requires i < |batch| && Grouped(sink, batch[..i], g)
    ensures Grouped(sink, batch[..i + 1], Extend(g, batch[i].1, Payloads(sink, batch[i].0)))
  {
    hide PayloadsFor, ChannelsOf, Payloads;
    OneMoreEvent(sink, batch, i);
  }

  lemma OneMoreEvent(sink: Sink, batch: seq<(Event, Channels)>, i: nat)
    requires i < |batch|
    ensures ChannelsOf(batch[..i + 1]) == if batch[i].1 in ChannelsOf(batch[..i]) then ChannelsOf(batch[..i])
                                          else ChannelsOf(batch[..i]) + [batch[i].1]
    ensures PayloadsFor(sink, batch[..i + 1], batch[i].1)
         == PayloadsFor(sink, batch[..i], batch[i].1) + Payloads(sink, batch[i].0)
    ensures forall c :: c != batch[i].1 ==> PayloadsFor(sink, batch[..i + 1], c) == PayloadsFor(sink, batch[..i], c)
  {
    assert batch[..i + 1][..i] == batch[..i];
  }

  lemma GroupNothing(sink: Sink, batch: seq<(Event, Channels)>)
    ensures Grouped(sink, batch[..0], Groups([], map[]))
  {
  }

  lemma SplitPayloads(sink: Sink, event: Event)
    ensures Splittable(sink, event) <==> EventChunks(sink, event).Success?
    ensures Splittable(sink, event) ==> EventChunks(sink, event) == Success(Payloads(sink, event))
  {
  }

  // The events are all split before anything is sent.
  method GroupByChannels(sink: Sink, batch: seq<(Event, Channels)>) returns (r: Result<Groups, SplitError>)
    ensures r.Success? <==> forall i :: 0 <= i < |batch| ==> Splittable(sink, batch[i].0)
    ensures r.Success? ==> Grouped(sink, batch, r.value)
  {
    hide *;
    var g := Groups([], map[]);
    GroupNothing(sink, batch);
    for i := 0 to |batch|
      invariant forall k :: 0 <= k < i ==> Splittable(sink, batch[k].0)
      invariant Grouped(sink, batch[..i], g)
    {
      SplitPayloads(sink, batch[i].0);
      GroupOneMore(sink, batch, i, g);
      var chunks := EventChunks(sink, batch[i].0);
      if chunks.Failure? {
        return Failure(chunks.error);
      }
      g := Extend(g, batch[i].1, chunks.value);
    }
    assert batch[..|batch|] == batch;
    return Success(g);
  }

  /**
   `publish_many`: one publication per distinct channel tuple, in order of first occurrence, each
   carrying all its payloads in batch order. If some event cannot be split, nothing is published.
   */
  method PublishMany(sink: Sink, batch: seq<(Event, Channels)>) returns (r: Result<seq<Group>, SplitError>)
    ensures r.Success? <==> forall i :: 0 <= i < |batch| ==> Splittable(sink, batch[i].0)
    ensures r.Success? ==>
              && |r.value| == |ChannelsOf(batch)|
              && forall k :: 0 <= k < |r.value| ==>
                   r.value[k] == Group(ChannelsOf(batch)[k], PayloadsFor(sink, batch, ChannelsOf(batch)[k]))
  {
    var g := GroupByChannels(sink, batch);
    if g.Failure? {
      return Failure(g.error);
    }
    var Groups(order, grouped) := g.value;
    var published: seq<Group> := [];
    var k := 0;
    while k < |order|
      invariant 0 <= k <= |order| && |published| == k
      invariant forall j :: 0 <= j < k ==> published[j] == Group(order[j], grouped[order[j]])
    {
      published := published + [Group(order[k], grouped[order[k]])];
      k := k + 1;
    }
    return Success(published);
  }

  // Nothing is lost or sent twice: every event's payloads are in the publication of its own tuple.
  lemma {:induction false} PayloadsKept(sink: Sink, batch: seq<(Event, Channels)>, i: nat, payload: Event)
    requires i < |batch| && payload in Payloads(sink, batch[i].0)
    ensures batch[i].1 in ChannelsOf(batch) && payload in PayloadsFor(sink, batch, batch[i].1)
  {
    ChannelsDistinct(batch);
    if i < |batch| - 1 {
      PayloadsKept(sink, batch[..|batch| - 1], i, payload);
    }
  }

  /** The payloads of a tuple are those of its events, batch part by batch part, in order. */
  lemma {:induction false} PayloadsInOrder(sink: Sink, a: seq<(Event, Channels)>, b: seq<(Event, Channels)>,
                                           channels: Channels)
    ensures PayloadsFor(sink, a + b, channels) == PayloadsFor(sink, a, channels) + PayloadsFor(sink, b, channels)
  {
    if b == [] {
      assert a + b == a;
    } else {
      PayloadsInOrder(sink, a, b[..|b| - 1], channels);
      assert (a + b)[..|a + b| - 1] == a + b[..|b| - 1];
    }
  }

  lemma PayloadsOfOne(sink: Sink, event: Event, to: Channels, channels: Channels)
    ensures PayloadsFor(sink, [(event, to)], channels) == if to == channels then Payloads(sink, event) else []
  {
    assert [(event, to)][..0] == [];
  }

  /** Tuples come in the order in which the batch first mentions them. */
  lemma {:induction false} ChannelsInOrder(batch: seq<(Event, Channels)>, i: nat, j: nat, n: nat)
    requires i < j < |ChannelsOf(batch)| && n < |batch| && batch[n].1 == ChannelsOf(batch)[j]
    ensures exists m :: 0 <= m < n && batch[m].1 == ChannelsOf(batch)[i]
  {
    var front := batch[..|batch| - 1];
    var last := batch[|batch| - 1].1;
    if n < |front| {
      ChannelsDistinct(front);
      ChannelsDistinct(batch);
      assert front[n].1 == ChannelsOf(batch)[j];
      ChannelsInOrder(front, i, j, n);
      var m :| 0 <= m < n && front[m].1 == ChannelsOf(front)[i];
      assert batch[m].1 == ChannelsOf(batch)[i];
    } else if last in ChannelsOf(front) {
      ChannelsDistinct(front);
      assert ChannelsOf(front)[i] in ChannelsOf(front);
      var m :| 0 <= m < |front| && front[m].1 == ChannelsOf(front)[i];
      assert batch[m].1 == ChannelsOf(batch)[i];
    } else {
      ChannelsDistinct(front);
      ChannelsDistinct(batch);
      assert ChannelsOf(batch)[|ChannelsOf(front)|] == last;
      assert j == |ChannelsOf(front)|;
      assert ChannelsOf(front)[i] in ChannelsOf(front);
      var m :| 0 <= m < |front| && front[m].1 == ChannelsOf(front)[i];
      assert batch[m].1 == ChannelsOf(batch)[i];
    }
  }

  /** Without a limit an event is its own payload; with one, its payloads are its split, each within the limit. */
  method PayloadsOfEvent(sink: Sink, event: Event) returns (payloads: seq<Event>)
    requires Splittable(sink, event)
    ensures payloads == Payloads(sink, event)
    ensures sink.maxBytes.None? ==> payloads == [event]
    ensures sink.maxBytes.Some? && event.isBatch && event.items != [] ==>
              && (sink.size(event) <= sink.maxBytes.value ==> payloads == [event])
              && (forall i :: 0 <= i < |payloads| ==> sink.size(payloads[i]) <= sink.maxBytes.value)
              && Concat(RunsOf(payloads)) == event.items
  {
    if sink.maxBytes.None? {
      return [event];
    }
    var r := SplitEventBatchBySize(event, sink.maxBytes.value, sink.size);
    if sink.size(event) <= sink.maxBytes.value { ConcatAppends(RunsOf([event]), []); }
    payloads := r.value;
  }
}
