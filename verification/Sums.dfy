/** Sums and selections over sequences, whatever their order. */
module Sums {
  function SumBy<T>(f: T -> int, xs: seq<T>): int {
    if xs == [] then 0 else SumBy(f, xs[..|xs| - 1]) + f(xs[|xs| - 1])
  }

  function Select<T>(p: T -> bool, xs: seq<T>): seq<T> {
    if xs == [] then []
    else
      var x := xs[|xs| - 1];
      if p(x) then Select(p, xs[..|xs| - 1]) + [x] else Select(p, xs[..|xs| - 1])
  }

  lemma SumBySnoc<T>(f: T -> int, xs: seq<T>, x: T)
    ensures SumBy(f, xs + [x]) == SumBy(f, xs) + f(x)
  {
    assert (xs + [x])[..|xs|] == xs;
  }

  lemma SelectSnoc<T>(p: T -> bool, xs: seq<T>, x: T)
    ensures Select(p, xs + [x]) == if p(x) then Select(p, xs) + [x] else Select(p, xs)
  {
    assert (xs + [x])[..|xs|] == xs;
  }

  lemma {:induction false} SumByConcat<T>(f: T -> int, a: seq<T>, b: seq<T>)
    ensures SumBy(f, a + b) == SumBy(f, a) + SumBy(f, b)
  {
    if b == [] {
      assert a + b == a;
    } else {
      SumByConcat(f, a, b[..|b| - 1]);
      assert (a + b)[..|a + b| - 1] == a + b[..|b| - 1];
    }
  }

  lemma TakenOut<T>(b: seq<T>, i: nat)
    requires i < |b|
    ensures multiset(b) == multiset(b[..i] + b[i + 1..]) + multiset{b[i]}
  {
    assert b == b[..i] + ([b[i]] + b[i + 1..]);
  }

  lemma Cancel<T>(x: multiset<T>, y: multiset<T>, e: T)
    requires x + multiset{e} == y + multiset{e}
    ensures x == y
  {
    assert x == x + multiset{e} - multiset{e} && y == y + multiset{e} - multiset{e};
  }

  /** Taking the same element out of two permutations leaves permutations. */
  lemma Without<T>(a: seq<T>, b: seq<T>, i: nat)
    requires a != [] && multiset(a) == multiset(b) && i < |b| && b[i] == a[|a| - 1]
    ensures multiset(a[..|a| - 1]) == multiset(b[..i] + b[i + 1..])
  {
    TakenOut(a, |a| - 1);
    TakenOut(b, i);
    assert a[..|a| - 1] + a[|a|..] == a[..|a| - 1];
    Cancel(multiset(a[..|a| - 1]), multiset(b[..i] + b[i + 1..]), b[i]);
  }

  /** Summing does not depend on the order. */
  lemma {:induction false} SumByPermutes<T>(f: T -> int, a: seq<T>, b: seq<T>)
    requires multiset(a) == multiset(b)
    ensures SumBy(f, a) == SumBy(f, b)
    decreases |a|
  {
    if a == [] {
      assert |multiset(b)| == 0;
    } else {
      var front, last := a[..|a| - 1], a[|a| - 1];
      assert a == front + [last];
      assert last in multiset(b);
      var i :| 0 <= i < |b| && b[i] == last;
      Without(a, b, i);
      SumByPermutes(f, front, b[..i] + b[i + 1..]);
      SumTakenOut(f, b, i);
    }
  }

  lemma SumTakenOut<T>(f: T -> int, b: seq<T>, i: nat)
    requires i < |b|
    ensures SumBy(f, b) == SumBy(f, b[..i] + b[i + 1..]) + f(b[i])
  {
    ThreeParts(b, i);
    SumOfParts(f, b, b[..i], b[i], b[i + 1..]);
  }

  lemma ThreeParts<T>(b: seq<T>, i: nat)
    requires i < |b|
    ensures b == b[..i] + [b[i]] + b[i + 1..]
  {}

  lemma SumOfParts<T>(f: T -> int, b: seq<T>, l: seq<T>, x: T, r: seq<T>)
    requires b == l + [x] + r
    ensures SumBy(f, b) == SumBy(f, l + r) + f(x)
  {
    SumByConcat(f, l + [x], r);
    SumByConcat(f, l, r);
    SumBySnoc(f, l, x);
  }

  /** Two exclusive selections sum to the selection of either. */
  lemma {:induction false} SumBySplit<T(!new)>(f: T -> int, p: T -> bool, q: T -> bool, either: T -> bool, xs: seq<T>)
    requires forall x :: either(x) <==> p(x) || q(x)
    requires forall x :: !(p(x) && q(x))
    ensures SumBy(f, Select(either, xs)) == SumBy(f, Select(p, xs)) + SumBy(f, Select(q, xs))
  {
    if xs != [] {
      var front, x := xs[..|xs| - 1], xs[|xs| - 1];
      SumBySplit(f, p, q, either, front);
      SumBySnoc(f, Select(either, front), x);
      SumBySnoc(f, Select(p, front), x);
      SumBySnoc(f, Select(q, front), x);
    }
  }

  lemma {:induction false} SelectMembers<T(!new)>(p: T -> bool, xs: seq<T>)
    ensures forall x :: x in Select(p, xs) <==> x in xs && p(x)
    ensures forall x :: multiset(Select(p, xs))[x] == if p(x) then multiset(xs)[x] else 0
  {
    if xs != [] {
      var front, last := xs[..|xs| - 1], xs[|xs| - 1];
      SelectMembers(p, front);
      assert xs == front + [last];
    }
  }

  lemma SelectPermutes<T(!new)>(p: T -> bool, a: seq<T>, b: seq<T>)
    requires multiset(a) == multiset(b)
    ensures multiset(Select(p, a)) == multiset(Select(p, b))
  {
    SelectMembers(p, a);
    SelectMembers(p, b);
  }

  lemma {:induction false} SelectAll<T(!new)>(p: T -> bool, xs: seq<T>)
    requires forall x :: x in xs ==> p(x)
    ensures Select(p, xs) == xs
  {
    if xs != [] { SelectAll(p, xs[..|xs| - 1]); }
  }

  lemma {:induction false} SelectNone<T(!new)>(p: T -> bool, xs: seq<T>)
    requires forall x :: x in xs ==> !p(x)
    ensures Select(p, xs) == []
  {
    if xs != [] { SelectNone(p, xs[..|xs| - 1]); }
  }

  lemma SameMembers<T(!new)>(a: seq<T>, b: seq<T>)
    requires multiset(a) == multiset(b)
    ensures forall x :: x in a <==> x in b
  {
    forall x ensures x in a <==> x in b {
      assert x in a <==> x in multiset(a);
      assert x in b <==> x in multiset(b);
    }
  }
}
