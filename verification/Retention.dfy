/**
 Event retention: ordered rules delete expired history under one shared budget. The first rule
 whose filter matches a record owns it.
 */
module Retention {
  import opened EventLog
  import opened Filtering
  import opened Ordering
  import opened Wrappers

  // Records older than `maxAge` expire, among those the rule's filter selects.
  datatype Rule = Rule(maxAge: int, query: Query)

  // The position of the first rule that matches, or the number of rules when none does.
  function FirstMatch(r: Record, rules: seq<Rule>): (i: nat)
    ensures i <= |rules|
    ensures forall j :: 0 <= j < i ==> !Matches(r, rules[j].query)
    ensures i < |rules| ==> Matches(r, rules[i].query)
  {
    if rules == [] || Matches(r, rules[0].query) then 0 else 1 + FirstMatch(r, rules[1..])
  }

  // The first matching rule finds the record too old.
  predicate IsExpired(r: Record, rules: seq<Rule>, now: int) {
    var i := FirstMatch(r, rules);
    i < |rules| && r.occurredAt < now - rules[i].maxAge
  }

  /**
   A record is expired exactly when some rule selects it that no earlier rule does, and it occurred
   more than that rule's age ago; at exactly that age it is kept.
   */
  lemma ExpiredMeans(r: Record, rules: seq<Rule>, now: int)
    ensures IsExpired(r, rules, now)
       <==> exists i :: && 0 <= i < |rules| && Matches(r, rules[i].query)
                        && (forall j :: 0 <= j < i ==> !Matches(r, rules[j].query))
                        && now - r.occurredAt > rules[i].maxAge
  {
    if i :| && 0 <= i < |rules| && Matches(r, rules[i].query)
            && (forall j :: 0 <= j < i ==> !Matches(r, rules[j].query)) && now - r.occurredAt > rules[i].maxAge {
      assert FirstMatch(r, rules) == i;
    }
  }

  function Expired(rules: seq<Rule>, now: int): Record -> bool {
    (r: Record) => IsExpired(r, rules, now)
  }

  function Retained(rules: seq<Rule>, now: int): Record -> bool {
    (r: Record) => !IsExpired(r, rules, now)
  }

  // What one deletion looks for: old enough, matched by the filter and by no excluded filter.
  predicate IsDoomed(r: Record, before: int, query: Query, exclude: seq<Query>) {
    r.occurredAt < before && Matches(r, query) && forall j :: 0 <= j < |exclude| ==> !Matches(r, exclude[j])
  }

  function Doomed(before: int, query: Query, exclude: seq<Query>): Record -> bool {
    (r: Record) => IsDoomed(r, before, query, exclude)
  }

  function Earlier(rules: seq<Rule>, i: nat): seq<Query>
    requires i <= |rules|
  {
    seq(i, j requires 0 <= j < i => rules[j].query)
  }

  function DoomedBy(rules: seq<Rule>, i: nat, now: int): Record -> bool
    requires i < |rules|
  {
    Doomed(now - rules[i].maxAge, rules[i].query, Earlier(rules, i))
  }

  // Rule `i` looks for exactly the expired records it owns.
  lemma RuleOwns(rules: seq<Rule>, i: nat, now: int, r: Record)
    requires i < |rules|
    ensures DoomedBy(rules, i, now)(r) <==> FirstMatch(r, rules) == i && IsExpired(r, rules, now)
  {
    var f := FirstMatch(r, rules);
    if f < i {
      assert Earlier(rules, i)[f] == rules[f].query;
    }
  }

  // No expired record of the first `i` rules is left.
  ghost predicate NoneBefore(records: seq<Record>, rules: seq<Rule>, i: nat, now: int) {
    forall r :: r in records && IsExpired(r, rules, now) ==> FirstMatch(r, rules) >= i
  }

  // One pass over the rules from rule `i` on, with a budget for the rest of the pass.
  function Pass(records: seq<Record>, rules: seq<Rule>, i: nat, budget: nat, now: int): seq<Record>
    requires i <= |rules|
    decreases |rules| - i
  {
    if i == |rules| || budget == 0 then records
    else
      var removed := |Oldest(records, DoomedBy(rules, i, now), Some(budget))|;
      Pass(Cleanup(records, DoomedBy(rules, i, now), Some(budget)), rules, i + 1,
           if removed <= budget then budget - removed else 0, now)
  }

  // ---------------------------------------------------------------- one rule

  lemma RuleCounts(records: seq<Record>, rules: seq<Rule>, i: nat, budget: nat, now: int)
    requires Distinct(records) && i < |rules|
    ensures var doomed := DoomedBy(rules, i, now);
            var gone := Oldest(records, doomed, Some(budget));
            var next := Cleanup(records, doomed, Some(budget));
            && |gone| <= budget
            && Count(next, Expired(rules, now)) == Count(records, Expired(rules, now)) - |gone|
            && Count(next, doomed) == Count(records, doomed) - |gone|
            && (|gone| < budget ==> |gone| == Count(records, doomed))
  {
    var doomed := DoomedBy(rules, i, now);
    var gone := Oldest(records, doomed, Some(budget));
    OldestFacts(records, doomed, Some(budget));
    forall id | id in Uids(gone) ensures id in Uids(Filter(records, Expired(rules, now))) {
      UidsMember(gone, id);
      var g :| g in gone && g.uid == id;
      RuleOwns(rules, i, now, g);
      FilterMember(records, Expired(rules, now), g);
      UidsMember(Filter(records, Expired(rules, now)), id);
    }
    hide Oldest, Filter, DoomedBy, Expired;
    EraseCounts(records, Uids(gone), doomed);
    EraseCounts(records, Uids(gone), Expired(rules, now));
  }

  lemma RuleFinishes(records: seq<Record>, rules: seq<Rule>, i: nat, budget: nat, now: int)
    requires Distinct(records) && i < |rules| && NoneBefore(records, rules, i, now)
    requires |Oldest(records, DoomedBy(rules, i, now), Some(budget))| < budget
    ensures NoneBefore(Cleanup(records, DoomedBy(rules, i, now), Some(budget)), rules, i + 1, now)
  {
    var doomed := DoomedBy(rules, i, now);
    var next := Cleanup(records, doomed, Some(budget));
    var survives := Survives(Uids(Oldest(records, doomed, Some(budget))));
    RuleCounts(records, rules, i, budget, now);
    forall r | r in next && IsExpired(r, rules, now) ensures FirstMatch(r, rules) >= i + 1 {
      FilterMember(records, survives, r);
      FilterMember(next, doomed, r);
      RuleOwns(rules, i, now, r);
    }
  }

  lemma RuleSparesRetained(records: seq<Record>, rules: seq<Rule>, i: nat, budget: nat, now: int)
    requires Distinct(records) && i < |rules|
    ensures Filter(Cleanup(records, DoomedBy(rules, i, now), Some(budget)), Retained(rules, now))
         == Filter(records, Retained(rules, now))
  {
    var doomed := DoomedBy(rules, i, now);
    var gone := Oldest(records, doomed, Some(budget));
    var kept := Filter(records, Retained(rules, now));
    OldestFacts(records, doomed, Some(budget));
    forall r | r in kept ensures Survives(Uids(gone))(r) {
      FilterMember(records, Retained(rules, now), r);
      RuleOwns(rules, i, now, r);
      SurvivorNotGone(records, gone, r);
      FilterMember(records, Survives(Uids(gone)), r);
    }
    FilterAll(kept, Survives(Uids(gone)));
    FilterCommutes(records, Survives(Uids(gone)), Retained(rules, now));
  }

  // ---------------------------------------------------------------- one pass

  // `next` is `records` without `k` expired records, or without any when there are fewer.
  ghost predicate Removes(records: seq<Record>, next: seq<Record>, rules: seq<Rule>, now: int, k: nat) {
    var n := Count(records, Expired(rules, now));
    && Distinct(next)
    && |next| == |records| - Min(k, n)
    && Count(next, Expired(rules, now)) == n - Min(k, n)
    && Filter(next, Retained(rules, now)) == Filter(records, Retained(rules, now))
  }

  lemma RemovesNothing(records: seq<Record>, rules: seq<Rule>, now: int, k: nat)
    requires Distinct(records) && (k == 0 || Count(records, Expired(rules, now)) == 0)
    ensures Removes(records, records, rules, now, k)
  {
  }

  lemma RemovesAdds(a: seq<Record>, b: seq<Record>, c: seq<Record>, rules: seq<Rule>, now: int, k: nat, m: nat)
    requires Removes(a, b, rules, now, k) && Removes(b, c, rules, now, m)
    ensures Removes(a, c, rules, now, k + m)
  {
  }

  lemma RuleRemoves(records: seq<Record>, rules: seq<Rule>, i: nat, budget: nat, now: int)
    requires Distinct(records) && i < |rules|
    ensures var gone := |Oldest(records, DoomedBy(rules, i, now), Some(budget))|;
            var next := Cleanup(records, DoomedBy(rules, i, now), Some(budget));
            gone <= budget && Distinct(next) && Removes(records, next, rules, now, gone)
  {
    hide Oldest, Cleanup, Distinct, Filter, DoomedBy, Expired, Retained;
    RuleCounts(records, rules, i, budget, now);
    CleanupMeans(records, DoomedBy(rules, i, now), Some(budget));
    OldestFacts(records, DoomedBy(rules, i, now), Some(budget));
    RuleSparesRetained(records, rules, i, budget, now);
  }

  lemma {:induction false} PassRemoves(records: seq<Record>, rules: seq<Rule>, i: nat, budget: nat, now: int)
    requires Distinct(records) && i <= |rules|
    requires budget > 0 ==> NoneBefore(records, rules, i, now)
    ensures var next := Pass(records, rules, i, budget, now);
            Distinct(next) && Removes(records, next, rules, now, budget)
    decreases |rules| - i
  {
    hide Oldest, Cleanup, NoneBefore, Removes, Distinct, DoomedBy;
    if budget == 0 {
      RemovesNothing(records, rules, now, budget);
    } else if i == |rules| {
      NothingExpired(records, rules, now);
      RemovesNothing(records, rules, now, budget);
    } else {
      var next := Cleanup(records, DoomedBy(rules, i, now), Some(budget));
      var gone := |Oldest(records, DoomedBy(rules, i, now), Some(budget))|;
      RuleRemoves(records, rules, i, budget, now);
      if gone < budget { RuleFinishes(records, rules, i, budget, now); }
      PassRemoves(next, rules, i + 1, budget - gone, now);
      RemovesAdds(records, next, Pass(records, rules, i, budget, now), rules, now, gone, budget - gone);
    }
  }

  lemma NothingExpired(records: seq<Record>, rules: seq<Rule>, now: int)
    requires NoneBefore(records, rules, |rules|, now)
    ensures Count(records, Expired(rules, now)) == 0
  {
    var found := Filter(records, Expired(rules, now));
    if found != [] {
      FilterMember(records, Expired(rules, now), found[0]);
    }
  }

  /**
   One pass deletes exactly min(limit, n) records, n being the number of records whose first
   matching rule finds them too old; every other record stays, in its place.
   */
  lemma PassDeletesExpired(records: seq<Record>, rules: seq<Rule>, limit: nat, now: int)
    requires Distinct(records)
    ensures var n := Count(records, Expired(rules, now));
            var next := Pass(records, rules, 0, limit, now);
            && Distinct(next)
            && |next| == |records| - Min(limit, n)
            && Count(next, Expired(rules, now)) == n - Min(limit, n)
            && Filter(next, Retained(rules, now)) == Filter(records, Retained(rules, now))
            && forall r :: r in records && FirstMatch(r, rules) == |rules| ==> r in next
  {
    PassRemoves(records, rules, 0, limit, now);
    var next := Pass(records, rules, 0, limit, now);
    forall r | r in records && FirstMatch(r, rules) == |rules| ensures r in next {
      FilterMember(records, Retained(rules, now), r);
      FilterMember(next, Retained(rules, now), r);
    }
  }

  // ---------------------------------------------------------------- repeated passes

  function Passes(records: seq<Record>, rules: seq<Rule>, limit: nat, now: int, k: nat): seq<Record> {
    if k == 0 then records else Pass(Passes(records, rules, limit, now, k - 1), rules, 0, limit, now)
  }

  lemma {:induction false} PassesRemove(records: seq<Record>, rules: seq<Rule>, limit: nat, now: int, k: nat)
    requires Distinct(records)
    ensures var next := Passes(records, rules, limit, now, k);
            Distinct(next) && Removes(records, next, rules, now, k * limit)
  {
    hide Removes, Pass, Distinct;
    if k == 0 {
      RemovesNothing(records, rules, now, 0);
    } else {
      var before := Passes(records, rules, limit, now, k - 1);
      PassesRemove(records, rules, limit, now, k - 1);
      PassRemoves(before, rules, 0, limit, now);
      RemovesAdds(records, before, Passes(records, rules, limit, now, k), rules, now, (k - 1) * limit, limit);
      assert k * limit == (k - 1) * limit + limit;
    }
  }

  /**
   With a fixed cutoff, passes stop changing the log exactly when their budgets together reach
   the number n of expired records, which is after n / limit passes rounded up; what is left then
   are the retained records in their order.
   */
  lemma PassesConverge(records: seq<Record>, rules: seq<Rule>, limit: nat, now: int, k: nat)
    requires Distinct(records) && limit > 0
    ensures var n := Count(records, Expired(rules, now));
            var next := Passes(records, rules, limit, now, k);
            && (Pass(next, rules, 0, limit, now) == next <==> k * limit >= n)
            && (k * limit >= n <==> k >= (n + limit - 1) / limit)
            && (k * limit >= n ==> next == Filter(records, Retained(rules, now)))
  {
    hide Pass, Passes, Filter, Expired, Retained, Distinct;
    var next := Passes(records, rules, limit, now, k);
    var once := Pass(next, rules, 0, limit, now);
    PassesRemove(records, rules, limit, now, k);
    PassRemoves(next, rules, 0, limit, now);
    RoundUp(Count(records, Expired(rules, now)), limit, k);
    if k * limit >= Count(records, Expired(rules, now)) {
      AllRetained(next, rules, now);
      AllRetained(once, rules, now);
    }
  }

  lemma AllRetained(records: seq<Record>, rules: seq<Rule>, now: int)
    requires Count(records, Expired(rules, now)) == 0
    ensures Filter(records, Retained(rules, now)) == records
  {
  }

  lemma RoundUp(n: nat, limit: nat, k: nat)
    requires limit > 0
    ensures k * limit >= n <==> k >= (n + limit - 1) / limit
  {
    var c := (n + limit - 1) / limit;
    assert c * limit <= n + limit - 1 < c * limit + limit;
    if k >= c { assert k * limit >= c * limit; }
    if k < c { assert (k + 1) * limit <= c * limit; }
  }

  // ---------------------------------------------------------------- the log and the pass in place

  // What a cleanup takes out is old enough, selected and not excluded; without a limit nothing such stays.
  lemma CleanupSelects(records: seq<Record>, before: int, query: Query, exclude: seq<Query>, limit: Option<nat>)
    requires Distinct(records)
    ensures var next := Cleanup(records, Doomed(before, query, exclude), limit);
            && (forall r :: r in records && r !in next ==>
                  && r.occurredAt < before && Matches(r, query)
                  && forall j :: 0 <= j < |exclude| ==> !Matches(r, exclude[j]))
            && (limit.None? ==> forall r :: r in next ==>
                  r.occurredAt >= before || !Matches(r, query) || exists j :: 0 <= j < |exclude| && Matches(r, exclude[j]))
  {
    var doomed := Doomed(before, query, exclude);
    CleanupMeans(records, doomed, limit);
    hide Distinct, Oldest, Filter, Matches;
    if limit.None? {
      var next := Cleanup(records, doomed, limit);
      forall r | r in next ensures !doomed(r) {
        AllDoomedGone(records, doomed, r);
      }
    }
  }

  lemma AllDoomedGone(records: seq<Record>, doomed: Record -> bool, r: Record)
    requires Distinct(records) && r in Cleanup(records, doomed, None)
    ensures !doomed(r)
  {
    KeyOrderIsTotal();
    var gone := Oldest(records, doomed, None);
    FilterMember(records, Survives(Uids(gone)), r);
    UidsMember(gone, r.uid);
    SortMember(Filter(records, doomed), byKey, r);
    FilterMember(records, doomed, r);
  }

  class MemoryEventLog {
    var records: seq<Record>

    ghost predicate Valid()
      reads this
    {
      Distinct(records)
    }

    constructor ()
      ensures Valid() && records == []
    {
      records := [];
    }

    // Delete the oldest records the condition selects and report how many.
    method CleanupEvents(before: int, query: Query, exclude: seq<Query>, limit: Option<nat>) returns (deleted: nat)
      requires Valid()
      modifies this
      ensures Valid()
      ensures records == Cleanup(old(records), Doomed(before, query, exclude), limit)
      ensures deleted == |old(records)| - |records|
      ensures forall r :: r in old(records) && r !in records ==>
                r.occurredAt < before && Matches(r, query) && forall j :: 0 <= j < |exclude| ==> !Matches(r, exclude[j])
      ensures limit.None? ==>
                forall r :: r in records ==>
                  r.occurredAt >= before || !Matches(r, query) || exists j :: 0 <= j < |exclude| && Matches(r, exclude[j])
    {
      CleanupMeans(records, Doomed(before, query, exclude), limit);
      OldestFacts(records, Doomed(before, query, exclude), limit);
      CleanupSelects(records, before, query, exclude, limit);
      hide Doomed, Sort, Distinct;
      var doomed := Oldest(records, Doomed(before, query, exclude), limit);
      if doomed == [] {
        FilterAll(records, Survives({}));
        return 0;
      }
      records := Filter(records, Survives(Uids(doomed)));
      deleted := |doomed|;
    }
  }

  // The pass from `start` is at rule `i` with `budget` rows left, and the log holds `records`.
  ghost predicate Underway(records: seq<Record>, start: seq<Record>, rules: seq<Rule>, i: nat, budget: nat,
                           limit: nat, now: int) {
    && Distinct(records) && i <= |rules| && budget <= limit
    && |start| - |records| == limit - budget
    && Pass(records, rules, i, budget, now) == Pass(start, rules, 0, limit, now)
  }

  lemma PassStarts(start: seq<Record>, rules: seq<Rule>, limit: nat, now: int)
    requires Distinct(start)
    ensures Underway(start, start, rules, 0, limit, limit, now)
  {
  }

  lemma RuleApplied(records: seq<Record>, next: seq<Record>, start: seq<Record>, rules: seq<Rule>, i: nat,
                    budget: nat, limit: nat, now: int)
    requires Underway(records, start, rules, i, budget, limit, now) && i < |rules| && budget > 0
    requires next == Cleanup(records, Doomed(now - rules[i].maxAge, rules[i].query, Earlier(rules, i)), Some(budget))
    ensures |records| - budget <= |next| <= |records|
    ensures Underway(next, start, rules, i + 1, budget - (|records| - |next|), limit, now)
  {
    hide Oldest, Cleanup, Distinct, Filter, Survives;
    OldestFacts(records, DoomedBy(rules, i, now), Some(budget));
    CleanupMeans(records, DoomedBy(rules, i, now), Some(budget));
  }

  lemma PassOver(records: seq<Record>, start: seq<Record>, rules: seq<Rule>, i: nat, budget: nat, limit: nat, now: int)
    requires Distinct(start) && Underway(records, start, rules, i, budget, limit, now)
    requires i == |rules| || budget == 0
    ensures records == Pass(start, rules, 0, limit, now)
    ensures limit - budget == Min(limit, Count(start, Expired(rules, now)))
  {
    PassRemoves(start, rules, 0, limit, now);
  }

  // One rule of the pass: delete what it owns, within the budget that is left.
  method ApplyRule(log: MemoryEventLog, rules: seq<Rule>, index: nat, remaining: int, startedAt: int,
                   ghost start: seq<Record>, ghost limit: nat)
    returns (removed: nat)
    requires log.Valid() && index < |rules| && remaining > 0
    requires Underway(log.records, start, rules, index, remaining, limit, startedAt)
    modifies log
    ensures log.Valid() && removed <= remaining
    ensures Underway(log.records, start, rules, index + 1, remaining - removed, limit, startedAt)
  {
    hide *;
    ghost var before := log.records;
    removed := log.CleanupEvents(startedAt - rules[index].maxAge, rules[index].query,
                                 Earlier(rules, index), Some(remaining));
    RuleApplied(before, log.records, start, rules, index, remaining, limit, startedAt);
  }

  // The loop over the rules, up to the end of the list or of the budget.
  method ApplyRules(log: MemoryEventLog, rules: seq<Rule>, eventLimit: nat, startedAt: int)
    returns (deleted: nat, ghost index: nat)
    requires log.Valid() && Underway(log.records, log.records, rules, 0, eventLimit, eventLimit, startedAt)
    modifies log
    ensures log.Valid() && index <= |rules| && deleted <= eventLimit
    ensures index == |rules| || deleted == eventLimit
    ensures Underway(log.records, old(log.records), rules, index, eventLimit - deleted, eventLimit, startedAt)
  {
    hide *;
    var remaining := eventLimit;
    ghost var start := log.records;
    deleted := 0;
    for i := 0 to |rules|
      invariant log.Valid() && remaining == eventLimit - deleted
      invariant Underway(log.records, start, rules, i, remaining, eventLimit, startedAt)
    {
      if remaining <= 0 {
        return deleted, i;
      }
      var removed := ApplyRule(log, rules, i, remaining, startedAt, start, eventLimit);
      deleted := deleted + removed;
      remaining := remaining - removed;
    }
    index := |rules|;
  }

  /** `_run_event_retention_rules`: one pass over the rules under the shared row budget. */
  method RunEventRetentionRules(log: MemoryEventLog, rules: seq<Rule>, eventLimit: int, startedAt: int)
    returns (deleted: int)
    requires log.Valid() && eventLimit > 0
    modifies log
    ensures log.Valid() && log.records == Pass(old(log.records), rules, 0, eventLimit, startedAt)
    ensures deleted == Min(eventLimit, Count(old(log.records), Expired(rules, startedAt)))
  {
    ghost var start := log.records;
    PassStarts(start, rules, eventLimit, startedAt);
    ghost var index;
    deleted, index := ApplyRules(log, rules, eventLimit, startedAt);
    PassOver(log.records, start, rules, index, eventLimit - deleted, eventLimit, startedAt);
    hide *;
  }
}
