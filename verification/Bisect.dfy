/**
 * `bisectCommit` of packages/analytics/src/bisect.ts.
 *
 * `commit` is any all-or-nothing write of a slice: from a state it either gives the next state or
 * an error and no change at all.
 */
module Bisect {
  import opened Prelude

  datatype Failure<+T, +E> = Failure(item: T, error: E)

  datatype Outcome<+S, +T, +E> =
    Outcome(state: S, succeeded: seq<T>, failed: seq<Failure<T, E>>, attempts: nat)

  type Commit<!S, !T, +E> = (S, seq<T>) -> Result<S, E>

  function Attempted<S, T, E>(commit: Commit<S, T, E>, state: S, batch: seq<T>): Outcome<S, T, E>
    requires batch != []
    decreases |batch|
  {
    match commit(state, batch)
    case Ok(next) => Outcome(next, batch, [], 1)
    case Err(error) =>
      if |batch| == 1 then Outcome(state, [], [Failure(batch[0], error)], 1)
      else
        var mid := |batch| / 2;
        var left := Attempted(commit, state, batch[..mid]);
        var right := Attempted(commit, left.state, batch[mid..]);
        Outcome(right.state, left.succeeded + right.succeeded, left.failed + right.failed,
                1 + left.attempts + right.attempts)
  }

  function Bisected<S, T, E>(commit: Commit<S, T, E>, state: S, items: seq<T>): Outcome<S, T, E> {
    if items == [] then Outcome(state, [], [], 0) else Attempted(commit, state, items)
  }

  /** The result the recursion writes into, and the database the callback writes to. */
  class BisectResult<S, T, E> {
    const commit: Commit<S, T, E>
    var state: S
    var succeeded: seq<T>
    var failed: seq<Failure<T, E>>
    var attempts: nat

    constructor (commit: Commit<S, T, E>, state: S)
      ensures this.commit == commit && this.state == state
      ensures succeeded == [] && failed == [] && attempts == 0
    {
      this.commit, this.state := commit, state;
      succeeded, failed, attempts := [], [], 0;
    }

    method Attempt(batch: seq<T>)
      requires batch != []
      modifies this
      ensures var o := Attempted(commit, old(state), batch);
              && state == o.state
              && succeeded == old(succeeded) + o.succeeded
              && failed == old(failed) + o.failed
              && attempts == old(attempts) + o.attempts
      decreases |batch|
    {
      attempts := attempts + 1;
      match commit(state, batch)
      case Ok(next) =>
        state := next;
        succeeded := succeeded + batch;
      case Err(error) =>
        if |batch| == 1 {
          failed := failed + [Failure(batch[0], error)];
          return;
        }
        ghost var left, right, middle := Front(batch), Back(batch), Attempted(commit, state, Front(batch)).state;
        Halves(commit, state, batch, middle);
        var mid := |batch| / 2;
        Attempt(batch[..mid]);
        assert state == middle;
        Attempt(batch[mid..]);
        Associates(old(succeeded), Attempted(commit, old(state), left).succeeded,
                   Attempted(commit, middle, right).succeeded);
        Associates(old(failed), Attempted(commit, old(state), left).failed, Attempted(commit, middle, right).failed);
    }
  }

  method BisectCommit<S, T, E>(commit: Commit<S, T, E>, state: S, items: seq<T>) returns (outcome: Outcome<S, T, E>)
    ensures outcome == Bisected(commit, state, items)
  {
    var result := new BisectResult<S, T, E>(commit, state);
    if items != [] {
      result.Attempt(items);
    }
    outcome := Outcome(result.state, result.succeeded, result.failed, result.attempts);
  }

  // ----- whatever the database does, nothing is lost and nothing is written twice

  function Items<T, E>(failed: seq<Failure<T, E>>): seq<T> {
    seq(|failed|, i requires 0 <= i < |failed| => failed[i].item)
  }

  /** The items whose mark equals `mark`, in order. */
  function Marked<T>(items: seq<T>, marks: seq<bool>, mark: bool): seq<T>
    requires |items| == |marks|
  {
    if items == [] then []
    else if marks[0] == mark then [items[0]] + Marked(items[1..], marks[1..], mark)
    else Marked(items[1..], marks[1..], mark)
  }

  lemma {:induction false} MarkedConcat<T>(a: seq<T>, b: seq<T>, ma: seq<bool>, mb: seq<bool>, mark: bool)
    requires |a| == |ma| && |b| == |mb|
    ensures Marked(a + b, ma + mb, mark) == Marked(a, ma, mark) + Marked(b, mb, mark)
  {
    if a == [] {
      assert a + b == b && ma + mb == mb;
    } else {
      MarkedConcat(a[1..], b, ma[1..], mb, mark);
      assert (a + b)[1..] == a[1..] + b && (ma + mb)[1..] == ma[1..] + mb;
    }
  }

  lemma {:induction false} MarkedAll<T>(items: seq<T>, mark: bool, n: nat)
    requires n == |items|
    ensures Marked(items, seq(n, _ => mark), mark) == items
    ensures Marked(items, seq(n, _ => mark), !mark) == []
  {
    if items != [] {
      MarkedAll(items[1..], mark, n - 1);
      assert seq(n, _ => mark)[1..] == seq(n - 1, _ => mark);
    }
  }

  /** Committing these slices one after another is possible and ends in `last`. */
  ghost predicate Commits<S, T, E>(commit: Commit<S, T, E>, first: S, slices: seq<seq<T>>, last: S) {
    if slices == [] then first == last
    else commit(first, slices[0]).Ok? && Commits(commit, commit(first, slices[0]).value, slices[1..], last)
  }

  lemma {:induction false} CommitsConcat<S, T, E>(commit: Commit<S, T, E>, first: S, a: seq<seq<T>>, mid: S,
                                                  b: seq<seq<T>>, last: S)
    requires Commits(commit, first, a, mid) && Commits(commit, mid, b, last)
    ensures Commits(commit, first, a + b, last)
  {
    if a == [] {
      assert a + b == b;
    } else {
      CommitsConcat(commit, commit(first, a[0]).value, a[1..], mid, b, last);
      assert (a + b)[1..] == a[1..] + b;
    }
  }

  function Front<T>(batch: seq<T>): seq<T> {
    batch[..|batch| / 2]
  }

  function Back<T>(batch: seq<T>): seq<T> {
    batch[|batch| / 2..]
  }

  /** Splitting in the middle splits the outcome: the back starts where the front has left the database. */
  lemma Halves<S, T, E>(commit: Commit<S, T, E>, state: S, batch: seq<T>, middle: S)
    requires Fails(commit, state, batch) && |batch| > 1 && middle == Attempted(commit, state, Front(batch)).state
    ensures 0 < |Front(batch)| < |batch| && 0 < |Back(batch)| < |batch| && Front(batch) + Back(batch) == batch
    ensures var o, left := Attempted(commit, state, batch), Attempted(commit, state, Front(batch));
            var right := Attempted(commit, middle, Back(batch));
            && o.state == right.state
            && o.succeeded == left.succeeded + right.succeeded
            && o.failed == left.failed + right.failed
            && Items(o.failed) == Items(left.failed) + Items(right.failed)
            && o.attempts == 1 + left.attempts + right.attempts
  {
  }

  /** Each item is marked as written or as failed, never both, and both lists keep their order. */
  lemma {:induction false} Partition<S, T, E>(commit: Commit<S, T, E>, state: S, batch: seq<T>)
    returns (marks: seq<bool>)
    requires batch != []
    ensures |marks| == |batch|
    ensures Attempted(commit, state, batch).succeeded == Marked(batch, marks, true)
    ensures Items(Attempted(commit, state, batch).failed) == Marked(batch, marks, false)
    decreases |batch|
  {
    if !Fails(commit, state, batch) {
      marks := seq(|batch|, _ => true);
      MarkedAll(batch, true, |batch|);
    } else if |batch| == 1 {
      marks := seq(|batch|, _ => false);
      MarkedAll(batch, false, |batch|);
      assert batch == [batch[0]] && Items(Attempted(commit, state, batch).failed) == batch;
    } else {
      var a, b, middle := Front(batch), Back(batch), Attempted(commit, state, Front(batch)).state;
      Halves(commit, state, batch, middle);
      var ml := Partition(commit, state, a);
      var mr := Partition(commit, middle, b);
      marks := ml + mr;
      MarkedConcat(a, b, ml, mr, true);
      MarkedConcat(a, b, ml, mr, false);
    }
  }

  /**
   * The written items went in once each, in slices that committed one after another. Every slice that
   * committed, every item that failed and every split between them was one attempt.
   */
  lemma {:induction false} WrittenInSlices<S, T, E>(commit: Commit<S, T, E>, state: S, batch: seq<T>)
    returns (slices: seq<seq<T>>)
    requires batch != []
    ensures Concat(slices) == Attempted(commit, state, batch).succeeded
    ensures Commits(commit, state, slices, Attempted(commit, state, batch).state)
    ensures Attempted(commit, state, batch).attempts == 2 * (|slices| + |Attempted(commit, state, batch).failed|) - 1
    decreases |batch|
  {
    if !Fails(commit, state, batch) {
      slices := [batch];
      ConcatOne(batch);
      assert slices[1..] == [];
    } else if |batch| == 1 {
      slices := [];
    } else {
      var a, b, middle := Front(batch), Back(batch), Attempted(commit, state, Front(batch)).state;
      Halves(commit, state, batch, middle);
      var sl := WrittenInSlices(commit, state, a);
      var sr := WrittenInSlices(commit, middle, b);
      slices := sl + sr;
      ConcatAppend(sl, sr);
      CommitsConcat(commit, state, sl, middle, sr, Attempted(commit, middle, b).state);
    }
  }

  /** Nothing is attempted for no items, and only then. */
  lemma NoItemsNoAttempts<S, T, E>(commit: Commit<S, T, E>, state: S, items: seq<T>)
    ensures Bisected(commit, state, items).attempts == 0 <==> items == []
  {
    if items != [] { var slices := WrittenInSlices(commit, state, items); }
  }

  /** An item that failed was refused on its own, once some first part of what was written had been committed. */
  ghost predicate FailedAlone<S(!new), T(!new), E>(commit: Commit<S, T, E>, first: S, written: seq<T>,
                                                   f: Failure<T, E>) {
    exists slices: seq<seq<T>>, s: S ::
      Commits(commit, first, slices, s) && Concat(slices) <= written && commit(s, [f.item]) == Err(f.error)
  }

  lemma RefusedAfter<S(!new), T(!new), E>(commit: Commit<S, T, E>, first: S, before: seq<seq<T>>, middle: S,
                                          written: seq<T>, f: Failure<T, E>)
    requires Commits(commit, first, before, middle) && FailedAlone(commit, middle, written, f)
    ensures FailedAlone(commit, first, Concat(before) + written, f)
  {
    var slices: seq<seq<T>>, s: S :|
      Commits(commit, middle, slices, s) && Concat(slices) <= written && commit(s, [f.item]) == Err(f.error);
    CommitsConcat(commit, first, before, middle, slices, s);
    ConcatAppend(before, slices);
  }

  lemma MoreWritten<S(!new), T(!new), E>(commit: Commit<S, T, E>, first: S, written: seq<T>, more: seq<T>,
                                         f: Failure<T, E>)
    requires FailedAlone(commit, first, written, f)
    ensures FailedAlone(commit, first, written + more, f)
  {
    var slices: seq<seq<T>>, s: S :|
      Commits(commit, first, slices, s) && Concat(slices) <= written && commit(s, [f.item]) == Err(f.error);
    assert Concat(slices) <= written + more;
  }

  /** Whatever fails was tried alone, against a state the items before it had led to. */
  lemma {:induction false} FailuresAreSingle<S(!new), T(!new), E>(commit: Commit<S, T, E>, state: S, batch: seq<T>,
                                                                  f: Failure<T, E>)
    requires batch != [] && f in Attempted(commit, state, batch).failed
    ensures FailedAlone(commit, state, Attempted(commit, state, batch).succeeded, f)
    decreases |batch|
  {
    if |batch| == 1 {
      var none: seq<seq<T>> := [];
      assert batch == [batch[0]];
      assert Commits(commit, state, none, state) && commit(state, [f.item]) == Err(f.error);
    } else {
      var a, b, middle := Front(batch), Back(batch), Attempted(commit, state, Front(batch)).state;
      Halves(commit, state, batch, middle);
      var left, right := Attempted(commit, state, a), Attempted(commit, middle, b);
      if f in left.failed {
        FailuresAreSingle(commit, state, a, f);
        MoreWritten(commit, state, left.succeeded, right.succeeded, f);
      } else {
        FailuresAreSingle(commit, middle, b, f);
        var slices := WrittenInSlices(commit, state, a);
        RefusedAfter(commit, state, slices, middle, right.succeeded, f);
      }
    }
  }

  // ----- when a slice fails exactly because it holds a poison item

  ghost predicate FailsOnPoison<S(!new), T(!new), E>(commit: Commit<S, T, E>, poison: T -> bool) {
    forall s, slice :: Fails(commit, s, slice) <==> Count(poison, slice) > 0
  }

  predicate Fails<S, T, E>(commit: Commit<S, T, E>, state: S, slice: seq<T>) {
    commit(state, slice).Err?
  }

  function Count<T>(p: T -> bool, items: seq<T>): nat {
    |Filter(p, items)|
  }

  function CeilLog2(n: nat): nat {
    if n <= 1 then 0 else 1 + CeilLog2((n + 1) / 2)
  }

  function Pow2(k: nat): nat {
    if k == 0 then 1 else 2 * Pow2(k - 1)
  }

  /** `CeilLog2` is the base-two logarithm rounded up. */
  lemma {:induction false} CeilLog2IsLeast(n: nat)
    requires n > 0
    ensures n <= Pow2(CeilLog2(n))
    ensures n > 1 ==> Pow2(CeilLog2(n) - 1) < n
  {
    if n > 1 {
      CeilLog2IsLeast((n + 1) / 2);
    }
  }

  lemma {:induction false} CeilLog2Monotone(a: nat, b: nat)
    requires a <= b
    ensures CeilLog2(a) <= CeilLog2(b)
  {
    if a > 1 { CeilLog2Monotone((a + 1) / 2, (b + 1) / 2); }
  }

  lemma {:induction false} WithoutNone<T>(p: T -> bool, items: seq<T>)
    ensures Count(p, items) == 0 ==> Without(p, items) == items
    ensures |Without(p, items)| + Count(p, items) == |items|
  {
    if items != [] {
      WithoutNone(p, items[1..]);
      assert items == [items[0]] + items[1..];
    }
  }

  /** Exactly the poison items fail and every other item is written, both in order. */
  lemma {:induction false} PoisonIsIsolated<S(!new), T(!new), E>(commit: Commit<S, T, E>, poison: T -> bool,
                                                                 state: S, batch: seq<T>)
    requires FailsOnPoison(commit, poison)
    requires batch != []
    ensures Attempted(commit, state, batch).succeeded == Without(poison, batch)
    ensures Items(Attempted(commit, state, batch).failed) == Filter(poison, batch)
    decreases |batch|
  {
    if !Fails(commit, state, batch) {
      WithoutNone(poison, batch);
      assert Items(Attempted(commit, state, batch).failed) == [];
    } else if |batch| == 1 {
      WithoutNone(poison, batch);
      assert batch == [batch[0]] && Items(Attempted(commit, state, batch).failed) == batch;
    } else {
      var a, b, middle := Front(batch), Back(batch), Attempted(commit, state, Front(batch)).state;
      Halves(commit, state, batch, middle);
      PoisonIsIsolated(commit, poison, state, a);
      PoisonIsIsolated(commit, poison, middle, b);
      FilterConcat(poison, a, b);
      WithoutConcat(poison, a, b);
    }
  }

  /** 1 + 2k⌈log2 n⌉ */
  function FewAttempts(k: nat, n: nat): nat {
    1 + 2 * (k * CeilLog2(n))
  }

  /** With k of n items poisoned the price is at most 1 + 2k⌈log2 n⌉ transactions. */
  lemma {:induction false} AttemptsAreFew<S(!new), T(!new), E>(commit: Commit<S, T, E>, poison: T -> bool,
                                                               state: S, batch: seq<T>)
    requires FailsOnPoison(commit, poison)
    requires batch != []
    ensures Attempted(commit, state, batch).attempts <= FewAttempts(Count(poison, batch), |batch|)
    decreases |batch|
  {
    AtLeastOneAttempt(Count(poison, batch), |batch|);
    if Fails(commit, state, batch) && |batch| > 1 {
      var a, b, middle := Front(batch), Back(batch), Attempted(commit, state, Front(batch)).state;
      Halves(commit, state, batch, middle);
      AttemptsAreFew(commit, poison, state, a);
      AttemptsAreFew(commit, poison, middle, b);
      CountConcat(poison, a, b);
      AttemptsAddUp(|batch|, Count(poison, a), Count(poison, b));
    }
  }

  lemma CountConcat<T>(p: T -> bool, a: seq<T>, b: seq<T>)
    ensures Count(p, a + b) == Count(p, a) + Count(p, b)
  {
    FilterConcat(p, a, b);
  }

  lemma AtLeastOneAttempt(k: nat, n: nat)
    ensures FewAttempts(k, n) >= 1
  {
  }

  lemma AttemptsAddUp(n: nat, kl: nat, kr: nat)
    requires n >= 2 && kl + kr >= 1
    ensures 1 + FewAttempts(kl, n / 2) + FewAttempts(kr, n - n / 2) <= FewAttempts(kl + kr, n)
  {
    var low, high := CeilLog2(n / 2), CeilLog2(n - n / 2);
    assert n - n / 2 == (n + 1) / 2;
    CeilLog2Monotone(n / 2, n - n / 2);
    ScaleUp(kl, low, high);
    Distribute(kl, kr, high);
  }

  lemma ScaleUp(k: nat, a: nat, b: nat)
    requires a <= b
    ensures k * a <= k * b
  {
  }

  lemma Distribute(a: nat, b: nat, h: nat)
    ensures (a + b) * (1 + h) == a + b + a * h + b * h
  {
  }
}
