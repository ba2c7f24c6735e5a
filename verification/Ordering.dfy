/** Sorting by a total order, as Python's `sorted` does: stable, so equal keys keep their order. */
module Ordering {

  ghost predicate TotalPreorder<T(!new)>(leq: (T, T) -> bool) {
    && (forall a, b :: leq(a, b) || leq(b, a))
    && (forall a, b, c :: leq(a, b) && leq(b, c) ==> leq(a, c))
  }

  ghost predicate Sorted<T>(xs: seq<T>, leq: (T, T) -> bool) {
    forall i, j :: 0 <= i < j < |xs| ==> leq(xs[i], xs[j])
  }

  // No two elements of the sequence compare equal.
  ghost predicate DistinctKeys<T>(xs: seq<T>, leq: (T, T) -> bool) {
    forall i, j :: 0 <= i < |xs| && 0 <= j < |xs| && i != j ==> !(leq(xs[i], xs[j]) && leq(xs[j], xs[i]))
  }

  function Insert<T>(x: T, xs: seq<T>, leq: (T, T) -> bool): seq<T> {
    if xs == [] || leq(x, xs[0]) then [x] + xs else [xs[0]] + Insert(x, xs[1..], leq)
  }

  function Sort<T>(xs: seq<T>, leq: (T, T) -> bool): seq<T> {
    if xs == [] then [] else Insert(xs[0], Sort(xs[1..], leq), leq)
  }

  lemma HeadAndTail<T>(xs: seq<T>)
    requires xs != []
    ensures multiset(xs) == multiset{xs[0]} + multiset(xs[1..])
  {
    assert xs == [xs[0]] + xs[1..];
  }

  lemma {:induction false} InsertAdds<T>(x: T, xs: seq<T>, leq: (T, T) -> bool)
    ensures multiset(Insert(x, xs, leq)) == multiset(xs) + multiset{x}
  {
    if xs != [] && !leq(x, xs[0]) {
      InsertAdds(x, xs[1..], leq);
      HeadAndTail(xs);
    }
  }

  lemma {:induction false} InsertSorts<T(!new)>(x: T, xs: seq<T>, leq: (T, T) -> bool)
    requires TotalPreorder(leq) && Sorted(xs, leq)
    ensures Sorted(Insert(x, xs, leq), leq)
  {
    if xs == [] || leq(x, xs[0]) {
    } else {
      var rest := Insert(x, xs[1..], leq);
      InsertSorts(x, xs[1..], leq);
      forall y | y in rest ensures leq(xs[0], y) {
        InsertAdds(x, xs[1..], leq);
        assert y in multiset(rest);
      }
    }
  }

  lemma {:induction false} SortSorts<T(!new)>(xs: seq<T>, leq: (T, T) -> bool)
    requires TotalPreorder(leq)
    ensures Sorted(Sort(xs, leq), leq)
    ensures multiset(Sort(xs, leq)) == multiset(xs)
  {
    if xs != [] {
      SortSorts(xs[1..], leq);
      InsertSorts(xs[0], Sort(xs[1..], leq), leq);
      InsertAdds(xs[0], Sort(xs[1..], leq), leq);
      HeadAndTail(xs);
    }
  }

  // The least element is the head of every sorted arrangement.
  lemma HeadsAgree<T(!new)>(xs: seq<T>, ys: seq<T>, leq: (T, T) -> bool)
    requires Sorted(xs, leq) && Sorted(ys, leq) && xs != [] && ys != []
    requires multiset(xs) == multiset(ys) && DistinctKeys(xs, leq)
    ensures xs[0] == ys[0]
  {
    var a, b := xs[0], ys[0];
    assert a in multiset(ys) && b in multiset(xs);
    var i :| 0 <= i < |xs| && xs[i] == b;
    var j :| 0 <= j < |ys| && ys[j] == a;
    assert i == 0 || leq(a, b);
    assert j == 0 || leq(b, a);
  }

  lemma {:induction false} SortedIsUnique<T(!new)>(xs: seq<T>, ys: seq<T>, leq: (T, T) -> bool)
    requires Sorted(xs, leq) && Sorted(ys, leq)
    requires multiset(xs) == multiset(ys) && DistinctKeys(xs, leq)
    ensures xs == ys
  {
    assert |multiset(xs)| == |xs| && |multiset(ys)| == |ys|;
    if xs != [] {
      HeadsAgree(xs, ys, leq);
      hide Sorted, DistinctKeys;
      TailsAgree(xs, ys, leq);
      SortedIsUnique(xs[1..], ys[1..], leq);
      assert xs == [xs[0]] + xs[1..] && ys == [ys[0]] + ys[1..];
    }
  }

  lemma TailsAgree<T(!new)>(xs: seq<T>, ys: seq<T>, leq: (T, T) -> bool)
    requires Sorted(xs, leq) && Sorted(ys, leq) && DistinctKeys(xs, leq)
    requires xs != [] && ys != [] && xs[0] == ys[0] && multiset(xs) == multiset(ys)
    ensures Sorted(xs[1..], leq) && Sorted(ys[1..], leq) && DistinctKeys(xs[1..], leq)
    ensures multiset(xs[1..]) == multiset(ys[1..])
  {
    HeadAndTail(xs);
    HeadAndTail(ys);
    assert multiset(xs[1..]) == multiset(xs) - multiset{xs[0]};
    assert multiset(ys[1..]) == multiset(ys) - multiset{ys[0]};
  }

  // An element whose key differs from all others keeps the keys of the list distinct.
  ghost predicate NewKey<T>(x: T, xs: seq<T>, leq: (T, T) -> bool) {
    forall y :: y in xs ==> !(leq(x, y) && leq(y, x))
  }

  lemma DistinctCons<T>(x: T, xs: seq<T>, leq: (T, T) -> bool)
    requires NewKey(x, xs, leq) && DistinctKeys(xs, leq)
    ensures DistinctKeys([x] + xs, leq)
  {
  }

  lemma DistinctUncons<T>(xs: seq<T>, leq: (T, T) -> bool)
    requires xs != [] && DistinctKeys(xs, leq)
    ensures NewKey(xs[0], xs[1..], leq) && DistinctKeys(xs[1..], leq)
  {
  }

  lemma {:induction false} InsertKeepsDistinct<T>(x: T, xs: seq<T>, leq: (T, T) -> bool)
    requires NewKey(x, xs, leq) && DistinctKeys(xs, leq)
    ensures DistinctKeys(Insert(x, xs, leq), leq)
  {
    if xs == [] || leq(x, xs[0]) {
      DistinctCons(x, xs, leq);
    } else {
      DistinctUncons(xs, leq);
      InsertKeepsDistinct(x, xs[1..], leq);
      var rest := Insert(x, xs[1..], leq);
      forall y | y in rest ensures !(leq(xs[0], y) && leq(y, xs[0])) {
        InsertAdds(x, xs[1..], leq);
        assert y in multiset(rest);
      }
      DistinctCons(xs[0], rest, leq);
    }
  }

  lemma {:induction false} SortKeepsDistinct<T(!new)>(xs: seq<T>, leq: (T, T) -> bool)
    requires TotalPreorder(leq) && DistinctKeys(xs, leq)
    ensures DistinctKeys(Sort(xs, leq), leq)
  {
    if xs != [] {
      DistinctUncons(xs, leq);
      SortKeepsDistinct(xs[1..], leq);
      forall y | y in Sort(xs[1..], leq) ensures y in xs[1..] {
        SortMember(xs[1..], leq, y);
      }
      InsertKeepsDistinct(xs[0], Sort(xs[1..], leq), leq);
    }
  }

  /** Sorting does not depend on the order of its input when no two keys are equal. */
  lemma SortIgnoresInputOrder<T(!new)>(xs: seq<T>, ys: seq<T>, leq: (T, T) -> bool)
    requires TotalPreorder(leq) && multiset(xs) == multiset(ys)
    requires DistinctKeys(xs, leq)
    ensures Sort(xs, leq) == Sort(ys, leq)
  {
    SortKeepsDistinct(xs, leq);
    SortSorts(xs, leq);
    SortSorts(ys, leq);
    SortedIsUnique(Sort(xs, leq), Sort(ys, leq), leq);
  }

  lemma SortMember<T(!new)>(xs: seq<T>, leq: (T, T) -> bool, x: T)
    requires TotalPreorder(leq)
    ensures x in Sort(xs, leq) <==> x in xs
    ensures |Sort(xs, leq)| == |xs|
  {
    SortSorts(xs, leq);
    assert x in multiset(Sort(xs, leq)) <==> x in multiset(xs);
    assert |multiset(Sort(xs, leq))| == |multiset(xs)|;
  }
}
