/** Left-to-right processing that may stop with an error, and its induction rule. */
module Folds {
  import opened Wrappers

  function TryFold<S, I, E>(f: (S, I) -> Result<S, E>, st: S, items: seq<I>): Result<S, E>
    decreases |items|
  {
    if items == [] then Ok(st)
    else
      match f(st, items[0])
      case Err(e) => Err(e)
      case Ok(st1) => TryFold(f, st1, items[1..])
  }

  /** What every successful step keeps, the whole pass keeps. */
  lemma {:induction false} TryFoldKeeps<S(!new), I(!new), E(!new)>(
      f: (S, I) -> Result<S, E>, inv: (S, seq<I>) -> bool, st: S, done: seq<I>, items: seq<I>, out: S)
    requires inv(st, done) && TryFold(f, st, items) == Ok(out)
    requires forall s, d, i, s' :: inv(s, d) && f(s, i) == Ok(s') ==> inv(s', d + [i])
    ensures inv(out, done + items)
    decreases |items|
  {
    if items == [] {
      assert done + items == done;
    } else {
      var s' := f(st, items[0]).value;
      assert inv(s', done + [items[0]]);
      TryFoldKeeps(f, inv, s', done + [items[0]], items[1..], out);
      assert done + [items[0]] + items[1..] == done + items;
    }
  }

  lemma TryFoldOne<S, I, E>(f: (S, I) -> Result<S, E>, s: S, i: I)
    ensures TryFold(f, s, [i]) == f(s, i)
  {
    assert [i][1..] == [];
  }
}
