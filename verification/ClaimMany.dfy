/**
 `claim_many` with explicit queues and per-queue limits, over a backend that claims one record at a
 time while other claimers may take records between any two calls.
 */
module ClaimMany {
  import opened Filtering
  import opened Ordering
  import opened Wrappers

  datatype Task = Task(id: int, queue: int, priority: int, queuedAt: int, createdAt: int)

  // The sort key: higher priority first, then oldest in the queue, oldest created, smallest id.
  predicate Before(a: Task, b: Task) {
    if a.priority != b.priority then a.priority > b.priority
    else if a.queuedAt != b.queuedAt then a.queuedAt < b.queuedAt
    else if a.createdAt != b.createdAt then a.createdAt < b.createdAt
    else a.id <= b.id
  }

  const order: (Task, Task) -> bool := (a, b) => Before(a, b)

  lemma BeforeIsTotal()
    ensures TotalPreorder(order)
    ensures forall a, b :: Before(a, b) && Before(b, a) ==> a.id == b.id
  {
  }

  ghost predicate DistinctIds(tasks: seq<Task>) {
    forall i, j :: 0 <= i < j < |tasks| ==> tasks[i].id != tasks[j].id
  }

  // `remaining.get(queue, 1) > 0`
  predicate HasRoom(caps: map<int, int>, queue: int) {
    queue !in caps || caps[queue] > 0
  }

  function Spend(caps: map<int, int>, queue: int): map<int, int> {
    if queue in caps then caps[queue := caps[queue] - 1] else caps
  }

  // One pass over the sorted candidates under the total limit and the queue limits.
  function Scan(sorted: seq<Task>, limit: nat, caps: map<int, int>): seq<Task> {
    if sorted == [] || limit == 0 then []
    else if HasRoom(caps, sorted[0].queue) then
      [sorted[0]] + Scan(sorted[1..], limit - 1, Spend(caps, sorted[0].queue))
    else Scan(sorted[1..], limit, caps)
  }

  // The first task of the sorted candidates that the limits allow.
  predicate IsFirstAllowed(sorted: seq<Task>, i: nat, caps: map<int, int>) {
    && i < |sorted| && HasRoom(caps, sorted[i].queue)
    && forall k :: 0 <= k < i ==> !HasRoom(caps, sorted[k].queue)
  }

  lemma {:induction false} ScanTakesFirst(sorted: seq<Task>, i: nat, limit: nat, caps: map<int, int>)
    requires limit > 0 && IsFirstAllowed(sorted, i, caps)
    ensures Scan(sorted, limit, caps)
         == [sorted[i]] + Scan(sorted[..i] + sorted[i + 1..], limit - 1, Spend(caps, sorted[i].queue))
  {
    var rest := sorted[..i] + sorted[i + 1..];
    if i == 0 {
      assert rest == sorted[1..];
    } else {
      ScanTakesFirst(sorted[1..], i - 1, limit, caps);
      assert rest[0] == sorted[0];
      assert rest[1..] == sorted[1..][..i - 1] + sorted[1..][i..];
      ScanZeroOrSkip(rest, limit - 1, Spend(caps, sorted[i].queue));
    }
  }

  // A task whose queue is exhausted contributes nothing.
  lemma ScanZeroOrSkip(sorted: seq<Task>, limit: nat, caps: map<int, int>)
    requires sorted != [] && !HasRoom(caps, sorted[0].queue)
    ensures Scan(sorted, limit, caps) == Scan(sorted[1..], limit, caps)
  {
  }

  lemma {:induction false} ScanNothing(sorted: seq<Task>, limit: nat, caps: map<int, int>)
    requires forall k :: 0 <= k < |sorted| ==> !HasRoom(caps, sorted[k].queue)
    ensures Scan(sorted, limit, caps) == []
  {
    if sorted != [] { ScanNothing(sorted[1..], limit, caps); }
  }

  // ---------------------------------------------------------------- filtering a queue order

  // The claimable records in the backend's listing order, which is the same key.
  ghost predicate Listing(tasks: seq<Task>) {
    forall i, j :: 0 <= i < j < |tasks| ==> Before(tasks[i], tasks[j]) && tasks[i].id != tasks[j].id
  }

  lemma {:induction false} FilterKeepsListing(tasks: seq<Task>, keep: Task -> bool)
    requires Listing(tasks)
    ensures Listing(Filter(tasks, keep))
  {
    if tasks != [] {
      FilterKeepsListing(tasks[1..], keep);
      forall x | x in Filter(tasks[1..], keep) ensures Before(tasks[0], x) && tasks[0].id != x.id {
        FilterMember(tasks[1..], keep, x);
      }
    }
  }

  function NotId(id: int): Task -> bool { (t: Task) => t.id != id }

  function NotTaken(ids: set<int>): Task -> bool { (t: Task) => t.id !in ids }

  function OfQueue(queue: int): Task -> bool { (t: Task) => t.queue == queue }

  function OneOf(queues: seq<int>): Task -> bool { (t: Task) => t.queue in queues }

  function WithoutId(tasks: seq<Task>, id: int): seq<Task> {
    Filter(tasks, NotId(id))
  }

  function InQueue(tasks: seq<Task>, queue: int): seq<Task> {
    Filter(tasks, OfQueue(queue))
  }

  function InQueues(tasks: seq<Task>, queues: seq<int>): seq<Task> {
    Filter(tasks, OneOf(queues))
  }

  // Removing one listed task cuts it out where it stands.
  lemma {:induction false} WithoutListed(tasks: seq<Task>, i: nat)
    requires Listing(tasks) && i < |tasks|
    ensures WithoutId(tasks, tasks[i].id) == tasks[..i] + tasks[i + 1..]
  {
    if i == 0 {
      FilterAll(tasks[1..], NotId(tasks[0].id));
    } else {
      WithoutListed(tasks[1..], i - 1);
      assert tasks[..i] + tasks[i + 1..] == [tasks[0]] + (tasks[1..][..i - 1] + tasks[1..][i..]);
    }
  }

  // ---------------------------------------------------------------- one claimed record

  // `t` comes before every task that the queue limits allow.
  ghost predicate LeastAllowed(tasks: seq<Task>, t: Task, caps: map<int, int>) {
    && t in tasks && HasRoom(caps, t.queue)
    && forall x :: x in tasks && HasRoom(caps, x.queue) ==> Before(t, x)
  }

  // Claiming the least allowed task is what the scan does first.
  lemma ClaimIsScanStep(tasks: seq<Task>, t: Task, limit: nat, caps: map<int, int>)
    requires Listing(tasks) && limit > 0 && LeastAllowed(tasks, t, caps)
    ensures Scan(tasks, limit, caps) == [t] + Scan(WithoutId(tasks, t.id), limit - 1, Spend(caps, t.queue))
  {
    var i :| 0 <= i < |tasks| && tasks[i] == t;
    forall k | 0 <= k < i ensures !HasRoom(caps, tasks[k].queue) {
      assert tasks[k] in tasks && Before(tasks[k], t);
      BeforeIsTotal();
    }
    WithoutListed(tasks, i);
    ScanTakesFirst(tasks, i, limit, caps);
  }

  // ---------------------------------------------------------------- the backend

  class Backend {
    var pool: seq<Task>                      // claimable records, in listing order
    var calls: nat
    const taken: nat -> set<int>             // ids other claimers take before the n-th call

    constructor (pool: seq<Task>, taken: nat -> set<int>)
      ensures this.pool == pool && this.taken == taken
    {
      this.pool, this.taken, calls := pool, taken, 0;
    }

    ghost predicate Alone() {
      forall n :: taken(n) == {}
    }

    method Interfere()
      requires Listing(pool)
      modifies this
      ensures Listing(pool) && forall t :: t in pool ==> t in old(pool)
      ensures Alone() ==> pool == old(pool)
    {
      var gone := taken(calls);
      FilterKeepsListing(pool, NotTaken(gone));
      forall t { FilterMember(pool, NotTaken(gone), t); }
      if gone == {} { FilterAll(pool, NotTaken(gone)); }
      pool := Filter(pool, NotTaken(gone));
      calls := calls + 1;
    }

    method ListPending(limit: nat, queue: int) returns (page: seq<Task>)
      requires Listing(pool)
      modifies this
      ensures Listing(pool) && forall t :: t in pool ==> t in old(pool)
      ensures Alone() ==> pool == old(pool)
      ensures var all := InQueue(pool, queue); page == if limit < |all| then all[..limit] else all
    {
      Interfere();
      var all := InQueue(pool, queue);
      page := if limit < |all| then all[..limit] else all;
    }

    method ClaimTask(id: int) returns (r: Option<Task>)
      requires Listing(pool)
      modifies this
      ensures Listing(pool) && forall t :: t in pool ==> t in old(pool)
      ensures r.Some? ==> r.value in old(pool) && r.value.id == id && forall t :: t in pool ==> t.id != id
      ensures Alone() ==> (r.None? <==> forall t :: t in old(pool) ==> t.id != id)
      ensures Alone() ==> pool == if r.Some? then WithoutId(old(pool), id) else old(pool)
    {
      Interfere();
      var i := 0;
      while i < |pool|
        invariant 0 <= i <= |pool|
        invariant forall k :: 0 <= k < i ==> pool[k].id != id
      {
        if pool[i].id == id {
          r := Some(pool[i]);
          FilterKeepsListing(pool, NotId(id));
          forall t { FilterMember(pool, NotId(id), t); }
          pool := WithoutId(pool, id);
          return;
        }
        i := i + 1;
      }
      r := None;
    }
  }

  // ---------------------------------------------------------------- claim_many

  ghost predicate Within(some: seq<Task>, all: seq<Task>) {
    forall t :: t in some ==> t in all
  }

  // Every candidate is claimable and allowed, and no allowed task comes before all candidates.
  ghost predicate Covers(candidates: seq<Task>, pool: seq<Task>, queues: seq<int>, caps: map<int, int>) {
    forall t :: t in pool && t.queue in queues && HasRoom(caps, t.queue) ==>
      exists c :: c in candidates && Before(c, t)
  }

  ghost predicate AllAllowed(candidates: seq<Task>, pool: seq<Task>, queues: seq<int>, caps: map<int, int>) {
    forall t :: t in candidates ==> t in pool && t.queue in queues && HasRoom(caps, t.queue)
  }

  // The pages of every queue that has room left, in one list.
  method CollectCandidates(backend: Backend, limit: nat, queues: seq<int>, caps: map<int, int>)
    returns (candidates: seq<Task>)
    requires Listing(backend.pool) && limit > 0
    modifies backend
    ensures Listing(backend.pool) && Within(backend.pool, old(backend.pool))
    ensures AllAllowed(candidates, old(backend.pool), queues, caps)
    ensures backend.Alone() ==> backend.pool == old(backend.pool)
    ensures backend.Alone() ==> Covers(candidates, old(backend.pool), queues, caps)
  {
    candidates := [];
    var i := 0;
    while i < |queues|
      invariant 0 <= i <= |queues|
      invariant Listing(backend.pool) && Within(backend.pool, old(backend.pool))
      invariant AllAllowed(candidates, old(backend.pool), queues, caps)
      invariant backend.Alone() ==> backend.pool == old(backend.pool)
      invariant backend.Alone() ==> Covers(candidates, old(backend.pool), queues[..i], caps)
    {
      assert queues[..i + 1] == queues[..i] + [queues[i]];
      if HasRoom(caps, queues[i]) {
        var page := backend.ListPending(limit, queues[i]);
        PageHasTheLeast(backend.pool, queues[i], limit);
        forall t | t in page ensures t in backend.pool && t.queue == queues[i] {
          FilterMember(backend.pool, OfQueue(queues[i]), t);
        }
        candidates := candidates + page;
      }
      i := i + 1;
    }
    assert queues[..i] == queues;
  }

  // A page of at least one record holds the least record of its queue.
  lemma PageHasTheLeast(pool: seq<Task>, queue: int, limit: nat)
    requires Listing(pool) && limit > 0
    ensures var all := InQueue(pool, queue);
            var page := if limit < |all| then all[..limit] else all;
            forall t :: t in pool && t.queue == queue ==> page != [] && page[0] in page && Before(page[0], t)
  {
    FilterKeepsListing(pool, OfQueue(queue));
    var all := InQueue(pool, queue);
    forall t | t in pool && t.queue == queue ensures all != [] && Before(all[0], t) {
      FilterMember(pool, OfQueue(queue), t);
    }
  }

  ghost predicate HasId(tasks: seq<Task>, id: int) {
    exists t :: t in tasks && t.id == id
  }

  // Try the candidates in order until one is claimed.
  method ClaimFirst(backend: Backend, candidates: seq<Task>) returns (r: Option<Task>)
    requires Listing(backend.pool)
    modifies backend
    ensures Listing(backend.pool) && Within(backend.pool, old(backend.pool))
    ensures r.Some? ==> r.value in old(backend.pool) && HasId(candidates, r.value.id) && !HasId(backend.pool, r.value.id)
    ensures backend.Alone() && candidates != [] && candidates[0] in old(backend.pool) ==>
              r == Some(candidates[0]) && backend.pool == WithoutId(old(backend.pool), candidates[0].id)
    ensures candidates == [] ==> r.None? && backend.pool == old(backend.pool)
  {
    var i := 0;
    while i < |candidates|
      invariant 0 <= i <= |candidates|
      invariant Listing(backend.pool) && Within(backend.pool, old(backend.pool))
      invariant i == 0 ==> backend.pool == old(backend.pool)
      invariant backend.Alone() && candidates != [] && candidates[0] in old(backend.pool) ==> i == 0
    {
      assert candidates[i] in candidates;
      r := backend.ClaimTask(candidates[i].id);
      if r.Some? {
        return;
      }
      i := i + 1;
    }
    r := None;
  }

  lemma SortKeepsCandidates(candidates: seq<Task>, pool: seq<Task>, queues: seq<int>, caps: map<int, int>)
    requires AllAllowed(candidates, pool, queues, caps)
    ensures AllAllowed(Sort(candidates, order), pool, queues, caps)
    ensures Covers(candidates, pool, queues, caps) ==> Covers(Sort(candidates, order), pool, queues, caps)
    ensures var sorted := Sort(candidates, order);
            sorted != [] ==> forall c :: c in sorted ==> Before(sorted[0], c)
  {
    BeforeIsTotal();
    forall t ensures t in Sort(candidates, order) <==> t in candidates {
      SortMember(candidates, order, t);
    }
    SortSorts(candidates, order);
    var sorted := Sort(candidates, order);
    forall c | c in sorted && sorted != [] ensures Before(sorted[0], c) {
      var k :| 0 <= k < |sorted| && sorted[k] == c;
      assert order(sorted[0], sorted[0]) && (k == 0 || order(sorted[0], sorted[k]));
    }
  }

  // The head of the candidates is the least allowed task of the pool, if there is any.
  ghost predicate HeadIsLeast(sorted: seq<Task>, pool: seq<Task>, queues: seq<int>, caps: map<int, int>) {
    if sorted != [] then sorted[0] in pool && LeastAllowed(InQueues(pool, queues), sorted[0], caps)
    else forall x :: x in InQueues(pool, queues) ==> !HasRoom(caps, x.queue)
  }

  lemma CandidateBefore(sorted: seq<Task>, pool: seq<Task>, queues: seq<int>, caps: map<int, int>, x: Task)
    requires Covers(sorted, pool, queues, caps)
    requires sorted != [] ==> forall c :: c in sorted ==> Before(sorted[0], c)
    requires x in pool && x.queue in queues && HasRoom(caps, x.queue)
    ensures sorted != [] && Before(sorted[0], x)
  {
  }

  lemma SortedHeadIsLeast(sorted: seq<Task>, pool: seq<Task>, queues: seq<int>, caps: map<int, int>)
    requires AllAllowed(sorted, pool, queues, caps) && Covers(sorted, pool, queues, caps)
    requires sorted != [] ==> forall c :: c in sorted ==> Before(sorted[0], c)
    ensures HeadIsLeast(sorted, pool, queues, caps)
  {
    hide Covers;
    forall x | x in InQueues(pool, queues) && HasRoom(caps, x.queue)
      ensures sorted != [] && Before(sorted[0], x)
    {
      FilterMember(pool, OneOf(queues), x);
      CandidateBefore(sorted, pool, queues, caps, x);
    }
    if sorted != [] {
      assert sorted[0] in sorted;
      FilterMember(pool, OneOf(queues), sorted[0]);
    }
  }

  // What one turn may take while others are at work, and what it takes alone.
  ghost predicate Took(r: Option<Task>, pool: seq<Task>, next: seq<Task>, queues: seq<int>, caps: map<int, int>) {
    && Listing(next) && (forall t :: t in next ==> t in pool)
    && (r.Some? ==>
          && r.value in pool && r.value.queue in queues && HasRoom(caps, r.value.queue)
          && forall t :: t in next ==> t.id != r.value.id)
  }

  ghost predicate TookLeast(r: Option<Task>, pool: seq<Task>, next: seq<Task>, queues: seq<int>, caps: map<int, int>) {
    match r
    case Some(t) => LeastAllowed(InQueues(pool, queues), t, caps) && next == WithoutId(pool, t.id)
    case None => forall x :: x in InQueues(pool, queues) ==> !HasRoom(caps, x.queue)
  }

  lemma TookCandidate(r: Option<Task>, sorted: seq<Task>, pool: seq<Task>, mid: seq<Task>, next: seq<Task>,
                      queues: seq<int>, caps: map<int, int>)
    requires Listing(pool) && AllAllowed(sorted, pool, queues, caps)
    requires Listing(next) && Within(mid, pool) && Within(next, mid)
    requires r.Some? ==> r.value in mid && HasId(sorted, r.value.id) && !HasId(next, r.value.id)
    ensures Took(r, pool, next, queues, caps)
  {
  }

  lemma TookAlone(r: Option<Task>, sorted: seq<Task>, pool: seq<Task>, next: seq<Task>, queues: seq<int>,
                  caps: map<int, int>)
    requires HeadIsLeast(sorted, pool, queues, caps)
    requires sorted == [] ==> r.None?
    requires sorted != [] && sorted[0] in pool ==> r == Some(sorted[0]) && next == WithoutId(pool, sorted[0].id)
    ensures TookLeast(r, pool, next, queues, caps)
  {
    hide LeastAllowed, WithoutId, InQueues;
  }

  lemma SortedCandidates(candidates: seq<Task>, pool: seq<Task>, queues: seq<int>, caps: map<int, int>)
    requires AllAllowed(candidates, pool, queues, caps)
    ensures AllAllowed(Sort(candidates, order), pool, queues, caps)
    ensures Covers(candidates, pool, queues, caps) ==> HeadIsLeast(Sort(candidates, order), pool, queues, caps)
  {
    hide AllAllowed, Covers, HeadIsLeast, Sort;
    SortKeepsCandidates(candidates, pool, queues, caps);
    if Covers(candidates, pool, queues, caps) {
      SortedHeadIsLeast(Sort(candidates, order), pool, queues, caps);
    }
  }

  // One turn of `claim_many`.
  method ClaimOne(backend: Backend, limit: nat, queues: seq<int>, caps: map<int, int>) returns (r: Option<Task>)
    requires Listing(backend.pool) && limit > 0
    modifies backend
    ensures Took(r, old(backend.pool), backend.pool, queues, caps)
    ensures backend.Alone() ==> TookLeast(r, old(backend.pool), backend.pool, queues, caps)
  {
    hide *;
    ghost var pool := backend.pool;
    var candidates := CollectCandidates(backend, limit, queues, caps);
    SortedCandidates(candidates, pool, queues, caps);
    var sorted := Sort(candidates, order);
    ghost var mid := backend.pool;
    r := ClaimFirst(backend, sorted);
    TookCandidate(r, sorted, pool, mid, backend.pool, queues, caps);
    if backend.Alone() {
      TookAlone(r, sorted, pool, backend.pool, queues, caps);
    }
  }

  function CountIn(tasks: seq<Task>, queue: int): nat {
    if tasks == [] then 0
    else CountIn(tasks[..|tasks| - 1], queue) + if tasks[|tasks| - 1].queue == queue then 1 else 0
  }

  // The claimed records so far: distinct, out of the pool, and charged to the limits.
  ghost predicate Charged(records: seq<Task>, pool: seq<Task>, start: seq<Task>, queues: seq<int>,
                          limits: map<int, int>, caps: map<int, int>) {
    && DistinctIds(records)
    && (forall t :: t in records ==> t in start && t.queue in queues)
    && (forall t, u :: t in records && u in pool ==> t.id != u.id)
    && (forall t :: t in pool ==> t in start)
    && caps.Keys == limits.Keys
    && forall q :: q in limits ==> caps[q] == limits[q] - CountIn(records, q) && (caps[q] >= 0 || CountIn(records, q) == 0)
  }

  lemma ChargeOne(records: seq<Task>, pool: seq<Task>, next: seq<Task>, start: seq<Task>, queues: seq<int>,
                  limits: map<int, int>, caps: map<int, int>, t: Task)
    requires Charged(records, pool, start, queues, limits, caps)
    requires Took(Some(t), pool, next, queues, caps)
    ensures Listing(next)
    ensures Charged(records + [t], next, start, queues, limits, Spend(caps, t.queue))
  {
  }

  // Alone, claiming the least allowed task leaves the rest of the scan to do.
  lemma RestOfScan(pool: seq<Task>, next: seq<Task>, queues: seq<int>, t: Task, limit: nat, caps: map<int, int>)
    requires Listing(pool) && limit > 0 && TookLeast(Some(t), pool, next, queues, caps)
    ensures Scan(InQueues(pool, queues), limit, caps)
         == [t] + Scan(InQueues(next, queues), limit - 1, Spend(caps, t.queue))
  {
    FilterKeepsListing(pool, OneOf(queues));
    ClaimIsScanStep(InQueues(pool, queues), t, limit, caps);
    FilterCommutes(pool, OneOf(queues), NotId(t.id));
  }

  function AtLeastZero(n: int): nat {
    if n > 0 then n else 0
  }

  // What the limits allow of all claimable records of the queues, in one scan.
  function OneScan(pool: seq<Task>, limit: int, queues: seq<int>, caps: map<int, int>): seq<Task> {
    Scan(InQueues(pool, queues), AtLeastZero(limit), caps)
  }

  // Alone, the records claimed so far and a scan of the rest are the scan of everything.
  ghost predicate OnTrack(records: seq<Task>, pool: seq<Task>, start: seq<Task>, limit: int, queues: seq<int>,
                          limits: map<int, int>, caps: map<int, int>) {
    records + OneScan(pool, limit - |records|, queues, caps) == OneScan(start, limit, queues, limits)
  }

  lemma StayOnTrack(records: seq<Task>, pool: seq<Task>, next: seq<Task>, start: seq<Task>, limit: int,
                    queues: seq<int>, limits: map<int, int>, caps: map<int, int>, t: Task)
    requires Listing(pool) && |records| < limit && TookLeast(Some(t), pool, next, queues, caps)
    requires OnTrack(records, pool, start, limit, queues, limits, caps)
    ensures OnTrack(records + [t], next, start, limit, queues, limits, Spend(caps, t.queue))
  {
    RestOfScan(pool, next, queues, t, limit - |records|, caps);
    hide Scan, InQueues, TookLeast, Spend;
    var rest := OneScan(next, limit - |records| - 1, queues, Spend(caps, t.queue));
    assert records + ([t] + rest) == records + [t] + rest;
  }

  lemma TrackEnds(records: seq<Task>, pool: seq<Task>, next: seq<Task>, start: seq<Task>, limit: int,
                  queues: seq<int>, limits: map<int, int>, caps: map<int, int>)
    requires OnTrack(records, pool, start, limit, queues, limits, caps)
    requires |records| >= limit || TookLeast(None, pool, next, queues, caps)
    ensures records == OneScan(start, limit, queues, limits)
  {
    if |records| < limit {
      ScanNothing(InQueues(pool, queues), AtLeastZero(limit - |records|), caps);
    }
  }

  lemma ChargedLimits(records: seq<Task>, pool: seq<Task>, start: seq<Task>, queues: seq<int>,
                      limits: map<int, int>, caps: map<int, int>)
    requires Charged(records, pool, start, queues, limits, caps)
    ensures DistinctIds(records)
    ensures forall t :: t in records ==> t in start && t.queue in queues
    ensures forall q :: q in limits ==> CountIn(records, q) <= AtLeastZero(limits[q])
  {
  }

  // ---------------------------------------------------------------- what one scan takes

  // Higher priority first, then the older in its queue, the older record, the smaller id.
  predicate Ahead(a: Task, b: Task) {
    && a.priority >= b.priority
    && (a.priority == b.priority ==>
          && a.queuedAt <= b.queuedAt
          && (a.queuedAt == b.queuedAt ==>
                && a.createdAt <= b.createdAt
                && (a.createdAt == b.createdAt ==> a.id <= b.id)))
  }

  lemma BeforeIsAhead(a: Task, b: Task)
    ensures Before(a, b) <==> Ahead(a, b)
  {
  }

  lemma {:induction false} CountInAdds(a: seq<Task>, b: seq<Task>, queue: int)
    ensures CountIn(a + b, queue) == CountIn(a, queue) + CountIn(b, queue)
  {
    if b == [] {
      assert a + b == a;
    } else {
      CountInAdds(a, b[..|b| - 1], queue);
      assert (a + b)[..|a + b| - 1] == a + b[..|b| - 1];
    }
  }

  lemma CountInOne(t: Task, queue: int)
    ensures CountIn([t], queue) == if t.queue == queue then 1 else 0
  {
    assert [t][..0] == [];
  }

  // A task that a scan leaves behind: the scan is full of tasks ahead of it, or its queue is.
  ghost predicate LeftBehind(taken: seq<Task>, x: Task, limit: nat, caps: map<int, int>) {
    || (|taken| == limit && forall y :: y in taken ==> Ahead(y, x))
    || (x.queue in caps && CountIn(taken, x.queue) >= caps[x.queue])
  }

  // `taken` is a scan of `sorted` that is in order and leaves nothing behind without reason.
  ghost predicate IsScan(sorted: seq<Task>, taken: seq<Task>, limit: nat, caps: map<int, int>) {
    && (forall t :: t in taken ==> t in sorted)
    && (forall i, j :: 0 <= i < j < |taken| ==> Ahead(taken[i], taken[j]))
    && (forall x :: x in sorted && x !in taken ==> LeftBehind(taken, x, limit, caps))
  }

  lemma HeadStaysBehind(h: Task, taken: seq<Task>, x: Task, limit: nat, caps: map<int, int>)
    requires limit > 0 && Ahead(h, x) && LeftBehind(taken, x, limit - 1, Spend(caps, h.queue))
    ensures LeftBehind([h] + taken, x, limit, caps)
  {
    CountInAdds([h], taken, x.queue);
    CountInOne(h, x.queue);
  }

  lemma TakeHead(h: Task, rest: seq<Task>, later: seq<Task>, limit: nat, caps: map<int, int>)
    requires limit > 0 && (forall x :: x in rest ==> Ahead(h, x))
    requires IsScan(rest, later, limit - 1, Spend(caps, h.queue))
    ensures IsScan([h] + rest, [h] + later, limit, caps)
  {
    hide LeftBehind, Ahead, Spend;
    forall x | x in [h] + rest && x !in [h] + later ensures LeftBehind([h] + later, x, limit, caps) {
      assert x in rest && x !in later;
      HeadStaysBehind(h, later, x, limit, caps);
    }
  }

  lemma SkipHead(h: Task, rest: seq<Task>, later: seq<Task>, limit: nat, caps: map<int, int>)
    requires !HasRoom(caps, h.queue) && IsScan(rest, later, limit, caps)
    ensures IsScan([h] + rest, later, limit, caps)
  {
    assert LeftBehind(later, h, limit, caps);
    hide LeftBehind, Ahead;
  }

  lemma HeadIsAhead(sorted: seq<Task>, x: Task)
    requires Listing(sorted) && sorted != [] && x in sorted[1..]
    ensures Ahead(sorted[0], x)
  {
    var i :| 0 < i < |sorted| && sorted[i] == x;
    BeforeIsAhead(sorted[0], x);
  }

  /**
   The scan takes tasks in order, from those listed, and leaves one behind only when the total limit is
   used up by tasks ahead of it or the limit of its queue is.
   */
  lemma {:induction false} ScanMeans(sorted: seq<Task>, limit: nat, caps: map<int, int>)
    requires Listing(sorted)
    ensures IsScan(sorted, Scan(sorted, limit, caps), limit, caps)
  {
    if sorted != [] && limit > 0 {
      var h, rest := sorted[0], sorted[1..];
      forall x | x in rest ensures Ahead(h, x) { HeadIsAhead(sorted, x); }
      assert sorted == [h] + rest;
      hide IsScan, Ahead, Spend;
      if HasRoom(caps, h.queue) {
        ScanMeans(rest, limit - 1, Spend(caps, h.queue));
        TakeHead(h, rest, Scan(rest, limit - 1, Spend(caps, h.queue)), limit, caps);
      } else {
        ScanMeans(rest, limit, caps);
        SkipHead(h, rest, Scan(rest, limit, caps), limit, caps);
      }
    }
  }

  lemma OneScanMeans(pool: seq<Task>, limit: int, queues: seq<int>, caps: map<int, int>)
    requires Listing(pool)
    ensures var taken := OneScan(pool, limit, queues, caps);
            && (forall i, j :: 0 <= i < j < |taken| ==> Ahead(taken[i], taken[j]))
            && (forall x :: x in pool && x.queue in queues && x !in taken ==>
                  LeftBehind(taken, x, AtLeastZero(limit), caps))
  {
    FilterKeepsListing(pool, OneOf(queues));
    ScanMeans(InQueues(pool, queues), AtLeastZero(limit), caps);
    forall x ensures x in InQueues(pool, queues) <==> x in pool && x.queue in queues {
      FilterMember(pool, OneOf(queues), x);
    }
    hide Scan, LeftBehind, Ahead, Listing, InQueues;
  }

  /**
   `claim_many` with queue limits. Alone, it returns exactly what one scan of all claimable records
   of the queues, in order, takes under the total limit and the queue limits. With other claimers
   at work it still returns distinct claimable records within every limit.
   */
  method ClaimMany(backend: Backend, limit: int, queues: seq<int>, queueLimits: map<int, int>)
    returns (records: seq<Task>)
    requires Listing(backend.pool)
    modifies backend
    ensures |records| <= AtLeastZero(limit)
    ensures DistinctIds(records)
    ensures forall t :: t in records ==> t in old(backend.pool) && t.queue in queues
    ensures forall q :: q in queueLimits ==> CountIn(records, q) <= AtLeastZero(queueLimits[q])
    ensures backend.Alone() ==> records == OneScan(old(backend.pool), limit, queues, queueLimits)
    ensures backend.Alone() ==> forall i, j :: 0 <= i < j < |records| ==> Ahead(records[i], records[j])
    ensures backend.Alone() ==> forall t :: t in old(backend.pool) && t.queue in queues && t !in records ==>
              LeftBehind(records, t, AtLeastZero(limit), queueLimits)
  {
    records := [];
    var caps := queueLimits;
    ghost var start := backend.pool;
    assert Charged(records, start, start, queues, queueLimits, caps);
    assert OnTrack(records, start, start, limit, queues, queueLimits, caps);
    OneScanMeans(start, limit, queues, queueLimits);
    hide Ahead, LeftBehind, Charged, OnTrack, OneScan, Listing, TookLeast, Took, Spend, DistinctIds, CountIn, Backend.Alone;
    ghost var pool := start;
    for i := 0 to AtLeastZero(limit)
      invariant |records| == i && Listing(backend.pool) && pool == backend.pool
      invariant Charged(records, pool, start, queues, queueLimits, caps)
      invariant backend.Alone() ==> OnTrack(records, pool, start, limit, queues, queueLimits, caps)
    {
      var claimed := ClaimOne(backend, limit, queues, caps);
      if claimed.None? {
        if backend.Alone() {
          TrackEnds(records, pool, backend.pool, start, limit, queues, queueLimits, caps);
        }
        break;
      }
      var t := claimed.value;
      if backend.Alone() {
        StayOnTrack(records, pool, backend.pool, start, limit, queues, queueLimits, caps, t);
      }
      ChargeOne(records, pool, backend.pool, start, queues, queueLimits, caps, t);
      records := records + [t];
      caps := Spend(caps, t.queue);
      pool := backend.pool;
    }
    if backend.Alone() && |records| >= limit {
      TrackEnds(records, pool, pool, start, limit, queues, queueLimits, caps);
    }
    ChargedLimits(records, pool, start, queues, queueLimits, caps);
  }
}
