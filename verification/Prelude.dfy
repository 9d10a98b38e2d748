/** Small shared vocabulary: optional and failing results, and a few sequence functions. */
module Prelude {

  datatype Option<+T> = None | Some(value: T)

  datatype Result<+T, +E> = Ok(value: T) | Err(error: E)

  function Min(a: int, b: int): int {
    if a <= b then a else b
  }

  function Max(a: int, b: int): int {
    if a >= b then a else b
  }

  function Concat<T>(ss: seq<seq<T>>): seq<T> {
    if ss == [] then [] else ss[0] + Concat(ss[1..])
  }

  function Filter<T>(p: T -> bool, s: seq<T>): (r: seq<T>)
    ensures |r| <= |s|
  {
    if s == [] then [] else if p(s[0]) then [s[0]] + Filter(p, s[1..]) else Filter(p, s[1..])
  }

  /** The items that do not satisfy `p`. */
  function Without<T>(p: T -> bool, s: seq<T>): seq<T> {
    if s == [] then [] else if p(s[0]) then Without(p, s[1..]) else [s[0]] + Without(p, s[1..])
  }

  lemma Associates<T>(a: seq<T>, b: seq<T>, c: seq<T>)
    ensures a + b + c == a + (b + c)
  {
  }

  lemma {:induction false} FilterConcat<T>(p: T -> bool, a: seq<T>, b: seq<T>)
    ensures Filter(p, a + b) == Filter(p, a) + Filter(p, b)
  {
    if a == [] {
      assert a + b == b;
    } else {
      FilterConcat(p, a[1..], b);
      assert (a + b)[0] == a[0] && (a + b)[1..] == a[1..] + b;
      Associates([a[0]], Filter(p, a[1..]), Filter(p, b));
    }
  }

  lemma {:induction false} WithoutConcat<T>(p: T -> bool, a: seq<T>, b: seq<T>)
    ensures Without(p, a + b) == Without(p, a) + Without(p, b)
  {
    if a == [] {
      assert a + b == b;
    } else {
      WithoutConcat(p, a[1..], b);
      assert (a + b)[0] == a[0] && (a + b)[1..] == a[1..] + b;
      Associates([a[0]], Without(p, a[1..]), Without(p, b));
    }
  }

  lemma ConcatOne<T>(s: seq<T>)
    ensures Concat([s]) == s
  {
    assert [s][1..] == [];
  }

  lemma {:induction false} ConcatAppend<T>(a: seq<seq<T>>, b: seq<seq<T>>)
    ensures Concat(a + b) == Concat(a) + Concat(b)
  {
    if a == [] {
      assert a + b == b;
    } else {
      ConcatAppend(a[1..], b);
      assert (a + b)[0] == a[0] && (a + b)[1..] == a[1..] + b;
      Associates(a[0], Concat(a[1..]), Concat(b));
    }
  }

  /** What `f` makes of the items it accepts, in order. */
  function Oks<A, B, E>(f: A -> Result<B, E>, s: seq<A>): seq<B> {
    if s == [] then [] else match f(s[0]) case Ok(b) => [b] + Oks(f, s[1..]) case Err(_) => Oks(f, s[1..])
  }

  /** What `f` says of the items it refuses, in order. */
  function Errs<A, B, E>(f: A -> Result<B, E>, s: seq<A>): seq<E> {
    if s == [] then [] else match f(s[0]) case Ok(_) => Errs(f, s[1..]) case Err(e) => [e] + Errs(f, s[1..])
  }

  lemma {:induction false} OksConcat<A, B, E>(f: A -> Result<B, E>, a: seq<A>, b: seq<A>)
    ensures Oks(f, a + b) == Oks(f, a) + Oks(f, b)
  {
    if a == [] {
      assert a + b == b;
    } else {
      OksConcat(f, a[1..], b);
      assert (a + b)[0] == a[0] && (a + b)[1..] == a[1..] + b;
    }
  }

  lemma {:induction false} ErrsConcat<A, B, E>(f: A -> Result<B, E>, a: seq<A>, b: seq<A>)
    ensures Errs(f, a + b) == Errs(f, a) + Errs(f, b)
  {
    if a == [] {
      assert a + b == b;
    } else {
      ErrsConcat(f, a[1..], b);
      assert (a + b)[0] == a[0] && (a + b)[1..] == a[1..] + b;
    }
  }

  lemma OneMore<A, B, E>(f: A -> Result<B, E>, s: seq<A>, x: A)
    ensures Oks(f, s + [x]) == Oks(f, s) + (match f(x) case Ok(b) => [b] case Err(_) => [])
    ensures Errs(f, s + [x]) == Errs(f, s) + (match f(x) case Ok(_) => [] case Err(e) => [e])
  {
    OksConcat(f, s, [x]);
    ErrsConcat(f, s, [x]);
    assert [x][1..] == [];
  }

  lemma {:induction false} OksAndErrs<A, B, E>(f: A -> Result<B, E>, s: seq<A>)
    ensures |Oks(f, s)| + |Errs(f, s)| == |s|
  {
    if s != [] { OksAndErrs(f, s[1..]); }
  }

  function Fold<S, T>(f: (S, T) -> S, state: S, items: seq<T>): S
    decreases |items|
  {
    if items == [] then state else Fold(f, f(state, items[0]), items[1..])
  }

  lemma {:induction false} FoldConcat<S, T>(f: (S, T) -> S, state: S, a: seq<T>, b: seq<T>)
    ensures Fold(f, state, a + b) == Fold(f, Fold(f, state, a), b)
    decreases |a|
  {
    if a == [] {
      assert a + b == b;
    } else {
      FoldConcat(f, f(state, a[0]), a[1..], b);
      assert (a + b)[1..] == a[1..] + b;
    }
  }

  lemma FoldOneMore<S, T>(f: (S, T) -> S, state: S, a: seq<T>, x: T)
    ensures Fold(f, state, a + [x]) == f(Fold(f, state, a), x)
  {
    FoldConcat(f, state, a, [x]);
    assert [x][1..] == [];
  }

  /** What holds of the start, and is kept by each item, holds at the end. */
  lemma {:induction false} FoldKeeps<S(!new), T(!new)>(f: (S, T) -> S, state: S, done: seq<T>, items: seq<T>,
                                                     holds: (S, seq<T>) -> bool)
    requires holds(state, done)
    requires forall s, d, x :: holds(s, d) ==> holds(f(s, x), d + [x])
    ensures holds(Fold(f, state, items), done + items)
    decreases |items|
  {
    if items == [] {
      assert done + items == done;
    } else {
      FoldKeeps(f, f(state, items[0]), done + [items[0]], items[1..], holds);
      assert done + [items[0]] + items[1..] == done + items;
    }
  }
}
