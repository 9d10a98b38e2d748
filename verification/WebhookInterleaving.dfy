/**
 * `deliverDue` drains several endpoints at once. Whatever order their turns come in, the rows and
 * the tallies are those of draining one endpoint after another.
 */
module WebhookInterleaving {
  import opened Prelude
  import opened CircuitBreaker
  import opened Webhook
  import opened WebhookRuns

  /** What one drain carries between its turns, and how many of its deliveries it has taken. */
  datatype Carried = Carried(breaker: Snapshot, disabled: bool, delivered: nat, failed: nat, skipped: nat, taken: nat)

  datatype Pool = Pool(hooks: Hooks, drains: seq<Carried>)

  function At(h: Hooks, c: Carried): Draining {
    Draining(h, c.breaker, c.disabled, c.delivered, c.failed, c.skipped)
  }

  function CarriedBy(x: Draining, taken: nat): Carried {
    Carried(x.breaker, x.disabled, x.delivered, x.failed, x.skipped, taken)
  }

  /** The next turn of drain `j`, if it has one left. */
  function Next(pool: Pool, groups: seq<Group>, pass: Pass, j: nat): Pool
    requires |pool.drains| == |groups|
  {
    if j < |groups| && pool.drains[j].taken < |groups[j].deliveries| then
      var x := Turn(pass)(At(pool.hooks, pool.drains[j]), groups[j].deliveries[pool.drains[j].taken]);
      Pool(x.hooks, pool.drains[j := CarriedBy(x, pool.drains[j].taken + 1)])
    else pool
  }

  function Run(pool: Pool, groups: seq<Group>, pass: Pass, turns: seq<nat>): (end: Pool)
    requires |pool.drains| == |groups|
    ensures |end.drains| == |groups|
    decreases |turns|
  {
    if turns == [] then pool else Run(Next(pool, groups, pass, turns[0]), groups, pass, turns[1..])
  }

  /** Every drain starts from the rows as they were listed. */
  function Listed(h: Hooks, groups: seq<Group>): Pool
    requires forall j :: 0 <= j < |groups| ==> groups[j].endpoint < |h.endpoints|
  {
    Pool(h, seq(|groups|, j requires 0 <= j < |groups| => CarriedBy(Starting(h, groups[j].endpoint), 0)))
  }

  predicate AllTaken(pool: Pool, groups: seq<Group>)
    requires |pool.drains| == |groups|
  {
    forall j :: 0 <= j < |groups| ==> pool.drains[j].taken == |groups[j].deliveries|
  }

  // ----- a drain reads and writes only what is its endpoint's

  /** The rows of one endpoint, and its part of the log, are the same. */
  predicate SameFor(h: Hooks, h': Hooks, e: Id) {
    && SameShape(h, h') && e < |h.endpoints| && h'.endpoints[e] == h.endpoints[e]
    && LogOf(h'.log, e) == LogOf(h.log, e)
    && forall i :: 0 <= i < |h.deliveries| && h.deliveries[i].endpoint == e ==> h'.deliveries[i] == h.deliveries[i]
  }

  lemma AnswerReadsItsOwn(h: Hooks, h': Hooks, e: Id, d: Id, breaker: Snapshot, pass: Pass)
    requires SameFor(h, h', e) && d < |h.deliveries| && h.deliveries[d].endpoint == e
    ensures SameFor(Answered(h, d, breaker, pass), Answered(h', d, breaker, pass), e)
  {
    var entry := Answered(h, d, breaker, pass).log[|h.log|];
    LogOfOneMore(h.log, entry, e);
    LogOfOneMore(h'.log, entry, e);
  }

  lemma TurnReadsItsOwn(x: Draining, y: Draining, e: Id, d: Id, pass: Pass)
    requires SameFor(x.hooks, y.hooks, e) && y == x.(hooks := y.hooks)
    requires d < |x.hooks.deliveries| && x.hooks.deliveries[d].endpoint == e
    ensures var x', y' := Turn(pass)(x, d), Turn(pass)(y, d);
            SameFor(x'.hooks, y'.hooks, e) && y' == x'.(hooks := y'.hooks)
  {
    if !x.disabled && Admit(x.breaker, pass.now).allow {
      var breaker := CarriedInto(x, pass.now);
      var changed := breaker.state != x.breaker.state;
      var h, h' := if changed then Persisted(x.hooks, e, breaker) else x.hooks,
                   if changed then Persisted(y.hooks, e, breaker) else y.hooks;
      assert SameFor(h, h', e);
      AnswerReadsItsOwn(h, h', e, d, breaker, pass);
    }
  }

  /** The groups are of different endpoints and hold deliveries of them. */
  ghost predicate Apart(h: Hooks, groups: seq<Group>) {
    && (forall i, j :: 0 <= i < j < |groups| ==> groups[i].endpoint != groups[j].endpoint)
    && (forall j :: 0 <= j < |groups| ==> BelongTo(h, groups[j].deliveries, groups[j].endpoint))
  }

  /** Drain `j` on its own, after `k` deliveries. */
  function Alone(h: Hooks, g: Group, pass: Pass, k: nat): Draining
    requires g.endpoint < |h.endpoints| && k <= |g.deliveries|
  {
    Fold(Turn(pass), Starting(h, g.endpoint), g.deliveries[..k])
  }

  /** Drain `j` is where it would be alone. */
  predicate Agrees(h: Hooks, g: Group, pass: Pass, hooks: Hooks, c: Carried)
    requires g.endpoint < |h.endpoints|
  {
    && c.taken <= |g.deliveries|
    && SameFor(Alone(h, g, pass, c.taken).hooks, hooks, g.endpoint)
    && CarriedBy(Alone(h, g, pass, c.taken), c.taken) == c
  }

  /** Nothing but the endpoints drained, and their deliveries, is touched. */
  ghost predicate OthersUntouched(h: Hooks, h': Hooks, groups: seq<Group>) {
    && SameShape(h, h')
    && (forall e: Id :: (forall j :: 0 <= j < |groups| ==> groups[j].endpoint != e) ==>
          LogOf(h'.log, e) == LogOf(h.log, e))
    && (forall e :: 0 <= e < |h.endpoints| ==> (forall j :: 0 <= j < |groups| ==> groups[j].endpoint != e) ==>
          h'.endpoints[e] == h.endpoints[e])
    && (forall i :: 0 <= i < |h.deliveries| ==>
          (forall j :: 0 <= j < |groups| ==> groups[j].endpoint != h.deliveries[i].endpoint) ==>
          h'.deliveries[i] == h.deliveries[i])
  }

  ghost predicate AllAgree(h: Hooks, groups: seq<Group>, pass: Pass, pool: Pool) {
    && |pool.drains| == |groups| && Apart(h, groups)
    && OthersUntouched(h, pool.hooks, groups)
    && forall j :: 0 <= j < |groups| ==> Agrees(h, groups[j], pass, pool.hooks, pool.drains[j])
  }

  lemma ListedAgree(h: Hooks, groups: seq<Group>, pass: Pass)
    requires Apart(h, groups)
    ensures AllAgree(h, groups, pass, Listed(h, groups))
  {
    forall j | 0 <= j < |groups| ensures Agrees(h, groups[j], pass, h, Listed(h, groups).drains[j]) {
      assert groups[j].deliveries[..0] == [];
    }
  }

  /** One more turn of a drain that is where it would be alone. */
  lemma OwnTurnAgrees(h: Hooks, g: Group, pass: Pass, hooks: Hooks, c: Carried)
    requires BelongTo(h, g.deliveries, g.endpoint) && SameShape(h, hooks) && Agrees(h, g, pass, hooks, c)
    requires c.taken < |g.deliveries|
    ensures var x := Turn(pass)(At(hooks, c), g.deliveries[c.taken]);
            Agrees(h, g, pass, x.hooks, CarriedBy(x, c.taken + 1))
  {
    var alone, d := Alone(h, g, pass, c.taken), g.deliveries[c.taken];
    DrainOneMore(pass, Starting(h, g.endpoint), g.deliveries, c.taken, alone);
    TurnReadsItsOwn(alone, At(hooks, c), g.endpoint, d, pass);
  }

  /** A turn of another drain. */
  lemma OtherTurnAgrees(h: Hooks, g: Group, pass: Pass, hooks: Hooks, c: Carried, hooks': Hooks, other: Id)
    requires g.endpoint < |h.endpoints| && Agrees(h, g, pass, hooks, c) && Local(hooks, hooks', other) &&
             other != g.endpoint
    ensures Agrees(h, g, pass, hooks', c)
  {
  }

  lemma TurnAgrees(h: Hooks, groups: seq<Group>, pass: Pass, pool: Pool, j: nat)
    requires AllAgree(h, groups, pass, pool)
    ensures AllAgree(h, groups, pass, Next(pool, groups, pass, j))
  {
    if j < |groups| && pool.drains[j].taken < |groups[j].deliveries| {
      var g, c, pool' := groups[j], pool.drains[j], Next(pool, groups, pass, j);
      TurnIsLocal(At(pool.hooks, c), g.endpoint, g.deliveries[c.taken], pass);
      OwnTurnAgrees(h, g, pass, pool.hooks, c);
      forall k | 0 <= k < |groups| ensures Agrees(h, groups[k], pass, pool'.hooks, pool'.drains[k]) {
        if k != j { OtherTurnAgrees(h, groups[k], pass, pool.hooks, pool.drains[k], pool'.hooks, g.endpoint); }
      }
    }
  }

  lemma {:induction false} RunAgrees(h: Hooks, groups: seq<Group>, pass: Pass, pool: Pool, turns: seq<nat>)
    requires AllAgree(h, groups, pass, pool)
    ensures AllAgree(h, groups, pass, Run(pool, groups, pass, turns))
    decreases |turns|
  {
    if turns != [] {
      TurnAgrees(h, groups, pass, pool, turns[0]);
      RunAgrees(h, groups, pass, Next(pool, groups, pass, turns[0]), turns[1..]);
    }
  }

  // ----- any two finished schedules come to the same

  lemma SameRows(h: Hooks, groups: seq<Group>, pass: Pass, a: Pool, b: Pool)
    requires AllAgree(h, groups, pass, a) && AllAgree(h, groups, pass, b) && AllTaken(a, groups) && AllTaken(b, groups)
    ensures a.drains == b.drains
    ensures a.hooks.endpoints == b.hooks.endpoints && a.hooks.deliveries == b.hooks.deliveries
    ensures forall e: Id :: LogOf(a.hooks.log, e) == LogOf(b.hooks.log, e)
  {
    forall j | 0 <= j < |groups| ensures a.drains[j] == b.drains[j] {
      assert Agrees(h, groups[j], pass, a.hooks, a.drains[j]) && Agrees(h, groups[j], pass, b.hooks, b.drains[j]);
    }
    forall e: Id ensures LogOf(a.hooks.log, e) == LogOf(b.hooks.log, e) {
      if j :| 0 <= j < |groups| && groups[j].endpoint == e {
        assert Agrees(h, groups[j], pass, a.hooks, a.drains[j]) && Agrees(h, groups[j], pass, b.hooks, b.drains[j]);
      }
    }
    forall e | 0 <= e < |h.endpoints| ensures a.hooks.endpoints[e] == b.hooks.endpoints[e] {
      if j :| 0 <= j < |groups| && groups[j].endpoint == e {
        assert Agrees(h, groups[j], pass, a.hooks, a.drains[j]) && Agrees(h, groups[j], pass, b.hooks, b.drains[j]);
      }
    }
    forall i | 0 <= i < |h.deliveries| ensures a.hooks.deliveries[i] == b.hooks.deliveries[i] {
      if j :| 0 <= j < |groups| && groups[j].endpoint == h.deliveries[i].endpoint {
        assert Agrees(h, groups[j], pass, a.hooks, a.drains[j]) && Agrees(h, groups[j], pass, b.hooks, b.drains[j]);
      }
    }
  }

  // ----- one endpoint after another is such a schedule

  function Sum(f: Carried -> nat, drains: seq<Carried>): nat {
    if drains == [] then 0 else f(drains[0]) + Sum(f, drains[1..])
  }

  lemma {:induction false} SumUpdate(f: Carried -> nat, drains: seq<Carried>, j: nat, c: Carried)
    requires j < |drains|
    ensures Sum(f, drains[j := c]) == Sum(f, drains) - f(drains[j]) + f(c)
  {
    if j == 0 {
      assert drains[j := c][1..] == drains[1..];
    } else {
      assert drains[j := c][1..] == drains[1..][j - 1 := c];
      SumUpdate(f, drains[1..], j - 1, c);
    }
  }

  lemma {:induction false} SumOfNothing(f: Carried -> nat, drains: seq<Carried>)
    requires forall j :: 0 <= j < |drains| ==> f(drains[j]) == 0
    ensures Sum(f, drains) == 0
  {
    if drains != [] { SumOfNothing(f, drains[1..]); }
  }

  const DELIVERED: Carried -> nat := (c: Carried) => c.delivered
  const FAILED: Carried -> nat := (c: Carried) => c.failed
  const SKIPPED: Carried -> nat := (c: Carried) => c.skipped

  lemma {:induction false} RunConcat(pool: Pool, groups: seq<Group>, pass: Pass, a: seq<nat>, b: seq<nat>)
    requires |pool.drains| == |groups|
    ensures Run(pool, groups, pass, a + b) == Run(Run(pool, groups, pass, a), groups, pass, b)
    decreases |a|
  {
    if a == [] {
      assert a + b == b;
    } else {
      RunConcat(Next(pool, groups, pass, a[0]), groups, pass, a[1..], b);
      assert (a + b)[1..] == a[1..] + b;
    }
  }

  /** All that is left of one drain, turn after turn. */
  lemma {:induction false} DrainInOneGo(pool: Pool, groups: seq<Group>, pass: Pass, j: nat) returns (turns: seq<nat>)
    requires |pool.drains| == |groups| && j < |groups| && pool.drains[j].taken <= |groups[j].deliveries|
    ensures var k, n := pool.drains[j].taken, |groups[j].deliveries|;
            var x := Fold(Turn(pass), At(pool.hooks, pool.drains[j]), groups[j].deliveries[k..]);
            Run(pool, groups, pass, turns) == Pool(x.hooks, pool.drains[j := CarriedBy(x, n)])
    decreases |groups[j].deliveries| - pool.drains[j].taken
  {
    var k, all := pool.drains[j].taken, groups[j].deliveries;
    if k == |all| {
      turns := [];
      assert all[k..] == [];
      assert pool.drains[j := pool.drains[j]] == pool.drains;
    } else {
      var next := Next(pool, groups, pass, j);
      var rest := DrainInOneGo(next, groups, pass, j);
      turns := [j] + rest;
      assert turns[1..] == rest;
      assert all[k..][1..] == all[k + 1..];
    }
  }

  function TotalsOf(pool: Pool): Totals {
    Totals(pool.hooks, Sum(DELIVERED, pool.drains), Sum(FAILED, pool.drains), Sum(SKIPPED, pool.drains))
  }

  /** The first `n` groups have been drained one after another, the others not begun. */
  ghost predicate InTurn(h: Hooks, groups: seq<Group>, pass: Pass, n: nat, pool: Pool)
    requires n <= |groups|
  {
    && AllAgree(h, groups, pass, pool)
    && (forall j :: 0 <= j < |groups| ==> pool.drains[j].taken == if j < n then |groups[j].deliveries| else 0)
    && Fold(Share(pass), Totals(h, 0, 0, 0), groups[..n]) == TotalsOf(pool)
  }

  /** A drain not yet begun starts from its endpoint's breaker as it stands. */
  lemma NotBegun(h: Hooks, g: Group, pass: Pass, hooks: Hooks, c: Carried)
    requires g.endpoint < |h.endpoints| && Agrees(h, g, pass, hooks, c) && c.taken == 0
    ensures g.endpoint < |hooks.endpoints| && At(hooks, c) == Starting(hooks, g.endpoint)
  {
    assert g.deliveries[..0] == [];
  }

  /** Draining a whole group adds to the totals what its drain has counted. */
  lemma ShareAddsUp(pool: Pool, g: Group, pass: Pass, n: nat, x: Draining)
    requires n < |pool.drains| && g.endpoint < |pool.hooks.endpoints|
    requires At(pool.hooks, pool.drains[n]) == Starting(pool.hooks, g.endpoint)
    requires x == Fold(Turn(pass), Starting(pool.hooks, g.endpoint), g.deliveries)
    ensures Share(pass)(TotalsOf(pool), g) == TotalsOf(Pool(x.hooks, pool.drains[n := CarriedBy(x, |g.deliveries|)]))
  {
    var c := CarriedBy(x, |g.deliveries|);
    SumUpdate(DELIVERED, pool.drains, n, c);
    SumUpdate(FAILED, pool.drains, n, c);
    SumUpdate(SKIPPED, pool.drains, n, c);
  }

  lemma OneMoreInTurn(h: Hooks, groups: seq<Group>, pass: Pass, n: nat, pool: Pool)
    returns (next: Pool, turns: seq<nat>)
    requires n < |groups| && InTurn(h, groups, pass, n, pool)
    ensures InTurn(h, groups, pass, n + 1, next) && next == Run(pool, groups, pass, turns)
  {
    var g, c := groups[n], pool.drains[n];
    assert Agrees(h, g, pass, pool.hooks, c);
    NotBegun(h, g, pass, pool.hooks, c);
    turns := DrainInOneGo(pool, groups, pass, n);
    next := Run(pool, groups, pass, turns);
    RunAgrees(h, groups, pass, pool, turns);
    assert g.deliveries[0..] == g.deliveries;
    ShareAddsUp(pool, g, pass, n, Fold(Turn(pass), Starting(pool.hooks, g.endpoint), g.deliveries));
    ShareOneMore(pass, Totals(h, 0, 0, 0), groups, n, TotalsOf(pool));
  }

  lemma {:induction false} AllInTurn(h: Hooks, groups: seq<Group>, pass: Pass, n: nat)
    returns (pool: Pool, turns: seq<nat>)
    requires Apart(h, groups) && n <= |groups|
    ensures InTurn(h, groups, pass, n, pool) && pool == Run(Listed(h, groups), groups, pass, turns)
  {
    if n == 0 {
      pool, turns := Listed(h, groups), [];
      ListedAgree(h, groups, pass);
      SumOfNothing(DELIVERED, pool.drains);
      SumOfNothing(FAILED, pool.drains);
      SumOfNothing(SKIPPED, pool.drains);
      assert groups[..0] == [];
    } else {
      var before, first := AllInTurn(h, groups, pass, n - 1);
      var last: seq<nat>;
      pool, last := OneMoreInTurn(h, groups, pass, n - 1, before);
      turns := first + last;
      RunConcat(Listed(h, groups), groups, pass, first, last);
    }
  }

  lemma DueGroupsAreApart(h: Hooks, due: seq<Id>, now: Time)
    requires IsDue(h, due, now)
    ensures Apart(h, GroupsOf(EndpointOf(h), due))
  {
    var groups := GroupsOf(EndpointOf(h), due);
    DueGroupsAreReady(h, due, now);
    forall j | 0 <= j < |groups| ensures BelongTo(h, groups[j].deliveries, groups[j].endpoint) {
      assert GroupPending(h, groups[j]);
    }
  }

  /**
   * However the turns of a pass's drains interleave, once all deliveries have been taken the rows of
   * endpoints and deliveries, the requests made to each endpoint in their order, and the tallies, are
   * those of one endpoint after another.
   */
  lemma InterleavedPassIsThePass(h: Hooks, due: seq<Id>, pass: Pass, turns: seq<nat>)
    requires IsDue(h, due, pass.now)
    ensures var groups := GroupsOf(EndpointOf(h), due);
            && (forall j :: 0 <= j < |groups| ==> groups[j].endpoint < |h.endpoints|)
            && var pool, t := Run(Listed(h, groups), groups, pass, turns), Passed(h, due, pass);
            && |pool.drains| == |groups|
            && (AllTaken(pool, groups) ==>
                  && pool.hooks.endpoints == t.hooks.endpoints && pool.hooks.deliveries == t.hooks.deliveries
                  && (forall e: Id :: LogOf(pool.hooks.log, e) == LogOf(t.hooks.log, e))
                  && Sum(DELIVERED, pool.drains) == t.delivered && Sum(FAILED, pool.drains) == t.failed
                  && Sum(SKIPPED, pool.drains) == t.skipped)
  {
    var groups := GroupsOf(EndpointOf(h), due);
    DueGroupsAreApart(h, due, pass.now);
    ListedAgree(h, groups, pass);
    RunAgrees(h, groups, pass, Listed(h, groups), turns);
    var pool := Run(Listed(h, groups), groups, pass, turns);
    var inTurn, order := AllInTurn(h, groups, pass, |groups|);
    assert groups[..|groups|] == groups;
    if AllTaken(pool, groups) { SameRows(h, groups, pass, pool, inTurn); }
  }
}
