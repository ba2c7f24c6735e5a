/** List comprehensions with a condition: `[x for x in xs if keep(x)]`. */
module Filtering {

  function Filter<T>(xs: seq<T>, keep: T -> bool): seq<T> {
    if xs == [] then []
    else (if keep(xs[0]) then [xs[0]] else []) + Filter(xs[1..], keep)
  }

  lemma {:induction false} FilterMember<T>(xs: seq<T>, keep: T -> bool, x: T)
    ensures x in Filter(xs, keep) <==> x in xs && keep(x)
  {
    if xs != [] { FilterMember(xs[1..], keep, x); }
  }

  lemma {:induction false} FilterAll<T>(xs: seq<T>, keep: T -> bool)
    requires forall x :: x in xs ==> keep(x)
    ensures Filter(xs, keep) == xs
  {
    if xs != [] { FilterAll(xs[1..], keep); }
  }

  lemma FilterHead<T>(x: T, xs: seq<T>, keep: T -> bool)
    ensures Filter([x] + xs, keep) == (if keep(x) then [x] else []) + Filter(xs, keep)
  {
  }

  lemma {:induction false} FilterConcat<T>(a: seq<T>, b: seq<T>, keep: T -> bool)
    ensures Filter(a + b, keep) == Filter(a, keep) + Filter(b, keep)
  {
    if a == [] {
      assert a + b == b;
    } else {
      hide Filter;
      assert a + b == [a[0]] + (a[1..] + b);
      FilterConcat(a[1..], b, keep);
      FilterHead(a[0], a[1..] + b, keep);
      FilterHead(a[0], a[1..], keep);
      assert a == [a[0]] + a[1..];
    }
  }

  lemma {:induction false} FilterCommutes<T>(xs: seq<T>, f: T -> bool, g: T -> bool)
    ensures Filter(Filter(xs, f), g) == Filter(Filter(xs, g), f)
  {
    if xs != [] {
      FilterCommutes(xs[1..], f, g);
      FilterConcat(if f(xs[0]) then [xs[0]] else [], Filter(xs[1..], f), g);
      FilterConcat(if g(xs[0]) then [xs[0]] else [], Filter(xs[1..], g), f);
    }
  }

  lemma {:induction false} FilterMultiplicity<T>(xs: seq<T>, keep: T -> bool, x: T)
    ensures multiset(Filter(xs, keep))[x] == if keep(x) then multiset(xs)[x] else 0
  {
    if xs != [] {
      FilterMultiplicity(xs[1..], keep, x);
      assert xs == [xs[0]] + xs[1..];
    }
  }

  lemma FilterPermuted<T(!new)>(xs: seq<T>, ys: seq<T>, keep: T -> bool)
    requires multiset(xs) == multiset(ys)
    ensures multiset(Filter(xs, keep)) == multiset(Filter(ys, keep))
  {
    forall x ensures multiset(Filter(xs, keep))[x] == multiset(Filter(ys, keep))[x] {
      FilterMultiplicity(xs, keep, x);
      FilterMultiplicity(ys, keep, x);
    }
    assert multiset(Filter(xs, keep)) == multiset(Filter(ys, keep));
  }
}
