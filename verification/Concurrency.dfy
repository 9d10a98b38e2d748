/**
 * `mapWithConcurrency` of apps/api/src/lib/concurrency.ts: a few runners pull indices off a shared
 * cursor, and their turns interleave in any order. A worker that throws is not part of this.
 */
module Concurrency {
  import opened Prelude

  /** A runner is about to pull, is waiting for its worker, or has returned. */
  datatype Runner = Ready | Working(index: nat) | Done

  /** `calls` is history: the indices the worker has been called with. */
  datatype Pool<R> = Pool(cursor: nat, results: seq<Option<R>>, runners: seq<Runner>, calls: seq<nat>)

  function RunnerCount(n: nat, limit: int): nat {
    Max(1, Min(limit, n))
  }

  function NewPool<R>(n: nat, limit: int): Pool<R> {
    Pool(0, seq(n, _ => None), seq(RunnerCount(n, limit), _ => Ready), [])
  }

  /** One turn of one runner: it pulls an index, or the worker it waits for returns. */
  function Next<T, R>(items: seq<T>, worker: (T, nat) -> R, pool: Pool<R>, r: nat): Pool<R> {
    if r >= |pool.runners| then pool
    else
      match pool.runners[r]
      case Done => pool
      case Ready =>
        var index := pool.cursor;
        if index >= |items| then pool.(cursor := index + 1, runners := pool.runners[r := Done])
        else pool.(cursor := index + 1, runners := pool.runners[r := Working(index)], calls := pool.calls + [index])
      case Working(index) =>
        if index < |items| && index < |pool.results| then
          pool.(results := pool.results[index := Some(worker(items[index], index))],
                runners := pool.runners[r := Ready])
        else pool
  }

  function Run<T, R>(items: seq<T>, worker: (T, nat) -> R, pool: Pool<R>, turns: seq<nat>): Pool<R>
    decreases |turns|
  {
    if turns == [] then pool else Run(items, worker, Next(items, worker, pool, turns[0]), turns[1..])
  }

  /** The shared variables of one call. */
  class Shared<T, R> {
    const items: seq<T>
    const worker: (T, nat) -> R
    var cursor: nat
    const results: array<Option<R>>
    var runners: seq<Runner>
    ghost var calls: seq<nat>

    ghost function View(): Pool<R>
      reads this, results
    {
      Pool(cursor, results[..], runners, calls)
    }

    constructor (items: seq<T>, limit: int, worker: (T, nat) -> R)
      ensures View() == NewPool(|items|, limit) && this.items == items && this.worker == worker && fresh(results)
    {
      this.items, this.worker := items, worker;
      cursor, calls := 0, [];
      results := new Option<R>[|items|](_ => None);
      runners := seq(RunnerCount(|items|, limit), _ => Ready);
    }

    method Turn(r: nat)
      requires results.Length == |items|
      modifies this, results
      ensures View() == Next(items, worker, old(View()), r)
    {
      if r >= |runners| { return; }
      match runners[r]
      case Done =>
      case Ready =>
        var index := cursor;
        cursor := cursor + 1;
        if index >= |items| {
          runners := runners[r := Done];
        } else {
          runners := runners[r := Working(index)];
          calls := calls + [index];
        }
      case Working(index) =>
        if index < |items| {
          results[index] := Some(worker(items[index], index));
          runners := runners[r := Ready];
        }
    }
  }

  // ----- the invariant

  predicate AtWork<R>(pool: Pool<R>, index: nat) {
    exists r :: 0 <= r < |pool.runners| && pool.runners[r] == Working(index)
  }

  ghost predicate Sound<T, R>(items: seq<T>, worker: (T, nat) -> R, pool: Pool<R>) {
    && |pool.results| == |items|
    && pool.calls == seq(Min(pool.cursor, |items|), i => i)
    && (forall r :: 0 <= r < |pool.runners| && pool.runners[r].Working? ==>
          pool.runners[r].index < Min(pool.cursor, |items|))
    && (forall r, s :: 0 <= r < s < |pool.runners| && pool.runners[r].Working? && pool.runners[s].Working? ==>
          pool.runners[r].index != pool.runners[s].index)
    && (forall r :: 0 <= r < |pool.runners| && pool.runners[r].Done? ==> pool.cursor >= |items|)
    && (forall i :: 0 <= i < |items| ==>
          pool.results[i] == if i < pool.cursor && !AtWork(pool, i) then Some(worker(items[i], i)) else None)
  }

  lemma PullKeeps<T, R>(items: seq<T>, worker: (T, nat) -> R, pool: Pool<R>, r: nat)
    requires Sound(items, worker, pool) && r < |pool.runners| && pool.runners[r] == Ready
    ensures Sound(items, worker, Next(items, worker, pool, r))
  {
    var next := Next(items, worker, pool, r);
    forall i | 0 <= i < |items|
      ensures AtWork(next, i) <==> AtWork(pool, i) || i == pool.cursor
    {
      if AtWork(pool, i) {
        var s :| 0 <= s < |pool.runners| && pool.runners[s] == Working(i);
        assert next.runners[s] == Working(i);
      }
      if i == pool.cursor { assert next.runners[r] == Working(i); }
    }
  }

  lemma FinishKeeps<T, R>(items: seq<T>, worker: (T, nat) -> R, pool: Pool<R>, r: nat)
    requires Sound(items, worker, pool) && r < |pool.runners| && pool.runners[r].Working?
    ensures Sound(items, worker, Next(items, worker, pool, r))
  {
    var next, index := Next(items, worker, pool, r), pool.runners[r].index;
    forall i | 0 <= i < |items|
      ensures AtWork(next, i) <==> AtWork(pool, i) && i != index
    {
      if AtWork(pool, i) && i != index {
        var s :| 0 <= s < |pool.runners| && pool.runners[s] == Working(i);
        assert next.runners[s] == Working(i);
      }
    }
    assert AtWork(pool, index);
  }

  lemma {:induction false} EveryTurnKeeps<T, R>(items: seq<T>, worker: (T, nat) -> R, pool: Pool<R>, turns: seq<nat>)
    requires Sound(items, worker, pool)
    ensures Sound(items, worker, Run(items, worker, pool, turns))
    ensures |Run(items, worker, pool, turns).runners| == |pool.runners|
    decreases |turns|
  {
    if turns != [] {
      var r := turns[0];
      if r < |pool.runners| {
        match pool.runners[r] {
          case Ready => PullKeeps(items, worker, pool, r);
          case Working(_) => FinishKeeps(items, worker, pool, r);
          case Done =>
        }
      }
      EveryTurnKeeps(items, worker, Next(items, worker, pool, r), turns[1..]);
    }
  }

  predicate Finished<R>(pool: Pool<R>) {
    forall r :: 0 <= r < |pool.runners| ==> pool.runners[r] == Done
  }

  function Active(runners: seq<Runner>): nat {
    if runners == [] then 0 else (if runners[0].Working? then 1 else 0) + Active(runners[1..])
  }

  lemma {:induction false} ActiveAtMost(runners: seq<Runner>)
    ensures Active(runners) <= |runners|
  {
    if runners != [] { ActiveAtMost(runners[1..]); }
  }

  /**
   * However the runners interleave: never more than the limit are at work, no index is handed out
   * twice, and when all have returned the results are those of a plain map, in the items' order.
   */
  lemma InterleavingIsInvisible<T, R>(items: seq<T>, limit: int, worker: (T, nat) -> R, turns: seq<nat>)
    ensures var pool := Run(items, worker, NewPool(|items|, limit), turns);
            && Active(pool.runners) <= Max(1, limit)
            && pool.calls == seq(Min(pool.cursor, |items|), i => i)
            && (Finished(pool) ==>
                  && pool.calls == seq(|items|, i => i)
                  && pool.results == seq(|items|, i requires 0 <= i < |items| => Some(worker(items[i], i))))
  {
    var start: Pool<R> := NewPool(|items|, limit);
    assert start.calls == seq(Min(0, |items|), i => i);
    EveryTurnKeeps(items, worker, start, turns);
    var pool := Run(items, worker, start, turns);
    ActiveAtMost(pool.runners);
    if Finished(pool) {
      assert pool.runners[0] == Done;
      forall i | 0 <= i < |items| ensures !AtWork(pool, i) {
      }
    }
  }

  // ----- the limit is used

  lemma {:induction false} RunOneMore<T, R>(items: seq<T>, worker: (T, nat) -> R, pool: Pool<R>, turns: seq<nat>,
                                            r: nat)
    ensures Run(items, worker, pool, turns + [r]) == Next(items, worker, Run(items, worker, pool, turns), r)
    decreases |turns|
  {
    if turns == [] {
      assert ([] + [r])[1..] == [];
    } else {
      RunOneMore(items, worker, Next(items, worker, pool, turns[0]), turns[1..], r);
      assert (turns + [r])[1..] == turns[1..] + [r];
    }
  }

  function FirstTurns(k: nat): seq<nat> {
    seq(k, i requires 0 <= i < k => i)
  }

  lemma {:induction false} EachPullsOne<T, R>(items: seq<T>, limit: int, worker: (T, nat) -> R, k: nat)
    requires k <= |items| && k <= Max(1, limit)
    ensures var pool := Run(items, worker, NewPool(|items|, limit), FirstTurns(k));
            && |pool.runners| == RunnerCount(|items|, limit) >= k && pool.cursor == k
            && forall i :: 0 <= i < |pool.runners| ==> pool.runners[i] == if i < k then Working(i) else Ready
  {
    if k > 0 {
      EachPullsOne(items, limit, worker, k - 1);
      RunOneMore(items, worker, NewPool(|items|, limit), FirstTurns(k - 1), k - 1);
      assert FirstTurns(k) == FirstTurns(k - 1) + [k - 1];
    }
  }

  lemma {:induction false} AllWorking(runners: seq<Runner>, k: nat)
    requires k <= |runners| && forall i :: 0 <= i < |runners| ==> (runners[i].Working? <==> i < k)
    ensures Active(runners) == k
  {
    if runners != [] {
      var rest := runners[1..];
      assert forall i :: 0 <= i < |rest| ==> rest[i] == runners[i + 1];
      AllWorking(rest, if k > 0 then k - 1 else 0);
    }
  }

  /** As many items as the limit allows, and there are, can be at work at once. */
  lemma TheLimitIsReached<T, R>(items: seq<T>, limit: int, worker: (T, nat) -> R)
    ensures var k := Min(|items|, Max(1, limit));
            Active(Run(items, worker, NewPool(|items|, limit), FirstTurns(k)).runners) == k
  {
    var k: nat := Min(|items|, Max(1, limit));
    EachPullsOne(items, limit, worker, k);
    AllWorking(Run(items, worker, NewPool(|items|, limit), FirstTurns(k)).runners, k);
  }

  // ----- it always finishes

  /** What is left: two turns for each index not yet pulled, and what each runner still has to do. */
  function Left(runners: seq<Runner>): nat {
    if runners == [] then 0
    else (match runners[0] case Ready => 1 case Working(_) => 2 case Done => 0) + Left(runners[1..])
  }

  function Measure<R>(n: nat, pool: Pool<R>): nat {
    2 * (n - Min(pool.cursor, n)) + Left(pool.runners)
  }

  lemma {:induction false} LeftUpdate(runners: seq<Runner>, r: nat, runner: Runner)
    requires r < |runners|
    ensures Left(runners[r := runner]) == Left(runners) + Left([runner]) - Left([runners[r]])
  {
    assert [runner][1..] == [] && [runners[r]][1..] == [];
    if r == 0 {
      assert runners[r := runner][1..] == runners[1..];
    } else {
      assert runners[r := runner][1..] == runners[1..][r - 1 := runner];
      LeftUpdate(runners[1..], r - 1, runner);
    }
  }

  /** Every turn of a runner that has not returned brings the end nearer. */
  lemma TurnsRunOut<T, R>(items: seq<T>, worker: (T, nat) -> R, pool: Pool<R>, r: nat)
    requires Sound(items, worker, pool) && r < |pool.runners| && pool.runners[r] != Done
    ensures Measure(|items|, Next(items, worker, pool, r)) < Measure(|items|, pool)
  {
    var runner := Next(items, worker, pool, r).runners[r];
    LeftUpdate(pool.runners, r, runner);
    assert [runner][1..] == [] && [pool.runners[r]][1..] == [];
  }
}
