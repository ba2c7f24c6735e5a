/** Retry delays over real numbers: one policy, persisted as metadata and read back in two places. */
module RetryDelay {
  import opened Wrappers

  datatype Backoff = Backoff(initialDelay: real, multiplier: real, maxDelay: Option<real>) {
    // What the constructor accepts.
    predicate Valid() {
      && initialDelay >= 0.0
      && multiplier >= 1.0
      && (maxDelay.Some? ==> maxDelay.value >= initialDelay)
    }

    // `as_metadata`
    function AsMetadata(): Metadata {
      map["initial_delay" := Some(initialDelay), "multiplier" := Some(multiplier), "max_delay" := maxDelay]
    }
  }

  // A JSON object of numbers and nulls.
  type Metadata = map<string, Option<real>>

  // The `interruptions` entry of a record's metadata.
  datatype MetaValue = Missing | NotANumber | Number(value: real)

  datatype Record = Record(retryCount: nat, interruptions: MetaValue, backoff: Option<Metadata>)

  // `float(value.get(name, default))`
  function Get(m: Metadata, name: string, default: real): real {
    if name in m && m[name].Some? then m[name].value else default
  }

  // `x ** n` for a base of at least one.
  function Power(x: real, n: int): (r: real)
    requires x >= 1.0
    ensures r > 0.0
    decreases if n < 0 then -n else n
  {
    if n == 0 then 1.0
    else if n > 0 then x * Power(x, n - 1)
    else Power(x, n + 1) / x
  }

  function Capped(delay: real, maxDelay: Option<real>): real {
    if maxDelay.Some? && maxDelay.value < delay then maxDelay.value else delay
  }

  // `RetryBackoff.delay_for`
  function DelayFor(b: Backoff, retryCount: int): real
    requires b.multiplier >= 1.0
  {
    Capped(b.initialDelay * Power(b.multiplier, retryCount), b.maxDelay)
  }

  // `int(value)` truncates; a negative count reads as none.
  function InterruptionCount(v: MetaValue): nat {
    if v.Number? && v.value >= 1.0 then v.value.Floor else 0
  }

  function AttemptsConsumed(r: Record): int {
    r.retryCount - InterruptionCount(r.interruptions)
  }

  predicate Readable(r: Record) {
    r.backoff.Some? ==> Get(r.backoff.value, "multiplier", 1.0) >= 1.0
  }

  // The delay both readers compute from the metadata, for the exponent each of them uses.
  function PersistedDelay(m: Metadata, exponent: int): real
    requires Get(m, "multiplier", 1.0) >= 1.0
  {
    Capped(Get(m, "initial_delay", 0.0) * Power(Get(m, "multiplier", 1.0), exponent),
           if "max_delay" in m then m["max_delay"] else None)
  }

  // The backend's `retry_schedule`: nothing when the delay is not positive.
  function BackendDelay(r: Record): Option<real>
    requires Readable(r)
  {
    if r.backoff.None? then None
    else
      var delay := PersistedDelay(r.backoff.value, AttemptsConsumed(r));
      if delay > 0.0 then Some(delay) else None
  }

  // The service's `_retry_delay`
  function ServiceDelay(r: Record): real
    requires Readable(r)
  {
    if r.backoff.None? then 0.0 else PersistedDelay(r.backoff.value, r.retryCount)
  }

  // ---------------------------------------------------------------- growth

  lemma Scale(a: real, b: real, c: real)
    requires a <= b && c >= 0.0
    ensures c * a <= c * b
  {
  }

  lemma PowerStep(x: real, n: int)
    requires x >= 1.0
    ensures Power(x, n) <= Power(x, n + 1)
  {
  }

  lemma {:induction false} PowerMonotone(x: real, m: int, n: int)
    requires x >= 1.0 && m <= n
    ensures Power(x, m) <= Power(x, n)
    decreases n - m
  {
    if m < n {
      PowerStep(x, m);
      PowerMonotone(x, m + 1, n);
    }
  }

  // Scaling by the initial delay and capping keep the order of two powers.
  lemma CappedMonotone(initial: real, p: real, q: real, maxDelay: Option<real>)
    requires p <= q && initial >= 0.0
    ensures Capped(initial * p, maxDelay) <= Capped(initial * q, maxDelay)
  {
    Scale(p, q, initial);
  }

  lemma DelayFollowsPower(b: Backoff, m: int, n: int)
    requires b.Valid() && Power(b.multiplier, m) <= Power(b.multiplier, n)
    ensures DelayFor(b, m) <= DelayFor(b, n)
  {
    hide Power;
    Scale(Power(b.multiplier, m), Power(b.multiplier, n), b.initialDelay);
  }

  lemma DelayEnds(b: Backoff, n: int)
    requires b.Valid()
    ensures DelayFor(b, 0) == b.initialDelay
    ensures b.maxDelay.Some? ==> DelayFor(b, n) <= b.maxDelay.value
  {
    assert Power(b.multiplier, 0) == 1.0;
    hide Power;
  }

  /** The delay never shrinks from one attempt to the next, starts at the initial delay and is capped. */
  lemma DelayGrows(b: Backoff, m: nat, n: nat)
    requires b.Valid() && m <= n
    ensures 0.0 <= b.initialDelay <= DelayFor(b, m) <= DelayFor(b, n)
    ensures b.maxDelay.Some? ==> DelayFor(b, n) <= b.maxDelay.value
    ensures DelayFor(b, 0) == b.initialDelay
  {
    hide Power, DelayFor;
    PowerMonotone(b.multiplier, m, n);
    PowerMonotone(b.multiplier, 0, m);
    DelayFollowsPower(b, m, n);
    DelayFollowsPower(b, 0, m);
    DelayEnds(b, n);
  }

  lemma PersistedDelayGrows(m: Metadata, i: int, j: int)
    requires Get(m, "multiplier", 1.0) >= 1.0 && Get(m, "initial_delay", 0.0) >= 0.0 && i <= j
    ensures PersistedDelay(m, i) <= PersistedDelay(m, j)
  {
    var x := Get(m, "multiplier", 1.0);
    PowerMonotone(x, i, j);
    hide Power, Get, Capped;
    CappedMonotone(Get(m, "initial_delay", 0.0), Power(x, i), Power(x, j),
                   if "max_delay" in m then m["max_delay"] else None);
  }

  /** With interruptions the service, which counts them, never waits less than the backend would. */
  lemma ServiceNeverWaitsLess(r: Record)
    requires Readable(r) && r.backoff.Some? && Get(r.backoff.value, "initial_delay", 0.0) >= 0.0
    ensures BackendDelay(r).Some? ==> BackendDelay(r).value <= ServiceDelay(r)
    ensures ServiceDelay(r) == 0.0 ==> BackendDelay(r).None?
  {
    hide PersistedDelay;
    PersistedDelayGrows(r.backoff.value, AttemptsConsumed(r), r.retryCount);
  }

  // ---------------------------------------------------------------- when the two readers agree

  lemma PowersDiffer(x: real, m: int, n: int)
    requires x > 1.0 && m < n
    ensures Power(x, m) < Power(x, n)
  {
    PowerMonotone(x, m + 1, n);
    var p, q := Power(x, m), Power(x, m + 1);
    if m >= 0 {
      GrowsBy(p, x, q);
    } else {
      assert p == q / x;
      GrowsBy(p, x, q);
    }
  }

  lemma GrowsBy(p: real, x: real, q: real)
    requires p > 0.0 && x > 1.0 && (q == x * p || p == q / x)
    ensures p < q
  {
    assert q == x * p;
    assert q - p == (x - 1.0) * p;
  }

  lemma {:induction false} PowerOfOne(n: int)
    ensures Power(1.0, n) == 1.0
    decreases if n < 0 then -n else n
  {
    if n > 0 { PowerOfOne(n - 1); } else if n < 0 { PowerOfOne(n + 1); }
  }

  // What the backend waits, reading no delay as zero.
  function BackendWait(r: Record): real
    requires Readable(r)
  {
    match BackendDelay(r) case Some(delay) => delay case None => 0.0
  }

  // The delay before the cap.
  function Uncapped(b: Backoff, n: int): real
    requires b.multiplier >= 1.0
  {
    b.initialDelay * Power(b.multiplier, n)
  }

  // The interruptions make no difference to the delay.
  predicate SameDelay(r: Record, b: Backoff)
    requires b.Valid()
  {
    || InterruptionCount(r.interruptions) == 0
    || b.multiplier == 1.0
    || b.initialDelay == 0.0
    || (b.maxDelay.Some? && b.maxDelay.value <= Uncapped(b, AttemptsConsumed(r)))
  }

  lemma DelayNotNegative(b: Backoff, n: int)
    requires b.Valid()
    ensures DelayFor(b, n) == Capped(Uncapped(b, n), b.maxDelay) >= 0.0
  {
    var p := Power(b.multiplier, n);
    hide Power;
    Scale(0.0, p, b.initialDelay);
  }

  // Through the metadata each reader computes `delay_for`, of the count it uses.
  lemma ReadersUseDelayFor(r: Record, b: Backoff)
    requires b.Valid() && r.backoff == Some(b.AsMetadata())
    ensures Readable(r) && ServiceDelay(r) == DelayFor(b, r.retryCount)
    ensures BackendWait(r) == DelayFor(b, AttemptsConsumed(r))
  {
    DelayNotNegative(b, AttemptsConsumed(r));
    hide Power, Capped, Uncapped;
  }

  lemma ScaleStrictly(p: real, q: real, c: real, cp: real, cq: real)
    requires p < q && c >= 0.0 && cp == c * p && cq == c * q
    ensures if c == 0.0 then cp == cq == 0.0 else cp < cq
  {
    assert cq - cp == c * (q - p);
  }

  lemma UncappedGrows(b: Backoff, k: int, n: int)
    requires b.Valid() && b.multiplier > 1.0 && k < n
    ensures if b.initialDelay == 0.0 then Uncapped(b, k) == Uncapped(b, n) == 0.0 else Uncapped(b, k) < Uncapped(b, n)
  {
    PowersDiffer(b.multiplier, k, n);
    var p, q := Power(b.multiplier, k), Power(b.multiplier, n);
    hide Power;
    ScaleStrictly(p, q, b.initialDelay, Uncapped(b, k), Uncapped(b, n));
  }

  // Of two growing delays, the capped ones are equal only at zero or at the cap.
  lemma CappedEqual(b: Backoff, k: int, n: int)
    requires b.Valid() && b.multiplier > 1.0 && k < n
    ensures DelayFor(b, k) == DelayFor(b, n)
       <==> b.initialDelay == 0.0 || (b.maxDelay.Some? && b.maxDelay.value <= Uncapped(b, k))
  {
    hide DelayFor, Uncapped;
    DelayNotNegative(b, k);
    DelayNotNegative(b, n);
    UncappedGrows(b, k, n);
  }

  lemma ConstantDelay(b: Backoff, k: int, n: int)
    requires b.Valid() && b.multiplier == 1.0
    ensures DelayFor(b, k) == DelayFor(b, n)
  {
    PowerOfOne(k);
    PowerOfOne(n);
  }

  /**
   Through the persisted metadata the service reads back `delay_for` of the retry count and the
   backend that of the attempts consumed. The two agree exactly when no interruption is recorded,
   the delay does not grow, there is none, or the backend's has reached its cap already.
   */
  lemma DelaysAgree(r: Record, b: Backoff)
    requires b.Valid() && r.backoff == Some(b.AsMetadata())
    ensures Readable(r)
    ensures ServiceDelay(r) == DelayFor(b, r.retryCount) && BackendWait(r) == DelayFor(b, AttemptsConsumed(r))
    ensures ServiceDelay(r) == BackendWait(r) <==> SameDelay(r, b)
  {
    ReadersUseDelayFor(r, b);
    hide DelayFor, ServiceDelay, BackendWait, Uncapped, Readable;
    var k, n := AttemptsConsumed(r), r.retryCount;
    if b.multiplier == 1.0 {
      ConstantDelay(b, k, n);
    } else if k < n {
      CappedEqual(b, k, n);
    }
  }

  /** Before the cap, the delay starts at the initial delay and is multiplied from one attempt to the next. */
  lemma DelayMultiplies(b: Backoff, n: nat)
    requires b.Valid()
    ensures Uncapped(b, 0) == b.initialDelay
    ensures Uncapped(b, n + 1) == b.multiplier * Uncapped(b, n)
    ensures DelayFor(b, n) == if b.maxDelay.Some? && b.maxDelay.value < Uncapped(b, n) then b.maxDelay.value
                              else Uncapped(b, n)
  {
    var p := Power(b.multiplier, n);
    assert Power(b.multiplier, n + 1) == b.multiplier * p;
    Associate(b.initialDelay, b.multiplier, p);
  }

  lemma Associate(a: real, x: real, p: real)
    ensures a * (x * p) == x * (a * p)
  {
  }

  /** A recorded count is cut to a whole number; a negative, missing or unreadable one counts as none. */
  lemma InterruptionsRead(v: MetaValue)
    ensures v.Number? && v.value >= 0.0 ==>
              InterruptionCount(v) as real <= v.value < InterruptionCount(v) as real + 1.0
    ensures !v.Number? || v.value < 0.0 ==> InterruptionCount(v) == 0
  {
  }

  /** Settings missing from the metadata read as no initial delay, no growth and no cap. */
  lemma MissingSettings(m: Metadata)
    ensures "initial_delay" !in m ==> Get(m, "initial_delay", 0.0) == 0.0
    ensures "multiplier" !in m ==> Get(m, "multiplier", 1.0) == 1.0
    ensures forall r: Record :: r.backoff.None? ==> Readable(r) && BackendDelay(r).None? && ServiceDelay(r) == 0.0
  {
  }
}
