/**
 * What a cooldown comes to in real time, and what a lost probe costs.
 *
 * A pass reads the clock once, when it begins, and stamps every opening and every probe with that
 * reading, however much later its requests leave and are answered.
 */
module WebhookTimes {
  import opened Prelude
  import opened CircuitBreaker
  import opened Webhook
  import opened WebhookRuns

  /** The breaker admits nothing before `gap` has gone by since `since`. */
  ghost predicate HoldsOff(breaker: Snapshot, since: Time, gap: int) {
    forall n :: Admit(breaker, n).allow ==> n >= since + gap
  }

  lemma StampDecides(breaker: Snapshot, stamp: Time, since: Time, gap: int)
    requires breaker.state != Closed && breaker.openedAt == Some(stamp)
    ensures forall n :: Admit(breaker, n).allow <==> n >= stamp + COOLDOWN_MS
    ensures HoldsOff(breaker, since, gap) <==> gap <= COOLDOWN_MS - (since - stamp)
  {
    assert Admit(breaker, stamp + COOLDOWN_MS).allow;
  }

  /**
   * In any run, an open breaker admits its next request exactly at a reading one cooldown after the
   * reading of the pass whose answer opened it. So what is guaranteed after the answer itself is a
   * cooldown less the time the answer took to come, and a whole one only if it took none.
   */
  lemma CooldownCountsFromTheReading(steps: seq<Step>, e: Id, gap: int)
    requires var h := Run(NO_HOOKS, steps);
             e < |h.endpoints| && h.endpoints[e].breaker.state == Open && Tripped(LastDial(h.log, e))
    ensures var h := Run(NO_HOOKS, steps);
            var breaker, opening := h.endpoints[e].breaker, LastDial(h.log, e).value;
            && (forall n :: Admit(breaker, n).allow <==> n >= opening.read + COOLDOWN_MS)
            && (HoldsOff(breaker, opening.answered, gap) <==> gap <= COOLDOWN_MS - (opening.answered - opening.read))
            && (HoldsOff(breaker, opening.answered, COOLDOWN_MS) <==> opening.answered <= opening.read)
  {
    EveryRunIsSound(NO_HOOKS, steps);
    var h := Run(NO_HOOKS, steps);
    assert BreakerKept(h, e);
    var opening := LastDial(h.log, e).value;
    StampDecides(h.endpoints[e].breaker, opening.read, opening.answered, gap);
    StampDecides(h.endpoints[e].breaker, opening.read, opening.answered, COOLDOWN_MS);
  }

  // ----- a slow pass

  const FRESH := Delivery(0, Pending, 0, 0, None)

  function Fresh(k: nat): seq<Delivery> {
    seq(k, i requires 0 <= i < k => FRESH)
  }

  function Ids(k: nat): seq<Id> {
    seq(k, i requires 0 <= i < k => i)
  }

  /** An endpoint is registered and `k` events happen that it has subscribed to. */
  function Queueing(k: nat): seq<Step> {
    if k == 0 then [EndpointRegistered(true)] else Queueing(k - 1) + [EventEmitted([0], 0)]
  }

  function Queue(k: nat): Hooks {
    Hooks([Endpoint(true, CLOSED_BREAKER, true)], Fresh(k), [])
  }

  lemma {:induction false} Queued(k: nat)
    ensures Run(NO_HOOKS, Queueing(k)) == Queue(k)
  {
    if k == 0 {
      RunOneMore(NO_HOOKS, [], EndpointRegistered(true));
      assert [] + [EndpointRegistered(true)] == Queueing(0);
      assert WebhookRuns.Next(NO_HOOKS, EndpointRegistered(true)) == Queue(0);
    } else {
      Queued(k - 1);
      RunOneMore(NO_HOOKS, Queueing(k - 1), EventEmitted([0], 0));
      var h := Queue(k - 1);
      assert [0 as Id][1..] == [];
      assert h.deliveries + [FRESH] == Fresh(k);
      assert Emitted(h, [0], 0) == Emitted(Queue(k), [], 0);
    }
  }

  /** `n` answers that take 4 seconds each and succeed, then timeouts of 5 seconds each. */
  function Left(n: nat, d: Id): Time {
    if d < n then 4000 * d else 4000 * n + 5000 * (d - n)
  }

  function SlowPass(n: nat): Pass {
    Pass(0, (d: Id) => if d < n then Some(200) else None, (d: Id, attempts: nat) => 1,
         (d: Id) => Left(n, d), (d: Id) => Left(n, d + 1))
  }

  /** The endpoint's breaker once `i` of those requests have been answered. */
  function BreakerAfter(n: nat, i: nat): Snapshot {
    if i <= n then CLOSED_BREAKER
    else if i < n + 5 then Snapshot(Closed, i - n, None) else Snapshot(Open, 5, Some(0))
  }

  /** The drain of the slow pass after `i` turns. */
  predicate Midway(x: Draining, n: nat, i: nat, k: nat) {
    && !x.disabled && x.breaker == BreakerAfter(n, i)
    && x.hooks.endpoints == [Endpoint(true, x.breaker, true)]
    && |x.hooks.deliveries| == k
    && (forall d :: 0 <= d < k ==> x.hooks.deliveries[d].endpoint == 0)
    && (forall d :: i <= d < k ==> x.hooks.deliveries[d] == FRESH)
    && (i > 0 ==>
          && x.hooks.log != []
          && x.hooks.log[|x.hooks.log| - 1] == Request(SlowPass(n), i - 1, 0, i == n + 5))
  }

  lemma MidwayOneMore(x: Draining, n: nat, i: nat, k: nat)
    requires Midway(x, n, i, k) && i < n + 5 <= k
    ensures Midway(Turn(SlowPass(n))(x, i), n, i + 1, k)
  {
  }

  lemma {:induction false} Drained(n: nat, i: nat, k: nat)
    requires i <= n + 5 <= k
    ensures Midway(Fold(Turn(SlowPass(n)), Starting(Queue(k), 0), Ids(n + 5)[..i]), n, i, k)
  {
    var start, group := Starting(Queue(k), 0), Ids(n + 5);
    if i == 0 {
      assert group[..0] == [];
    } else {
      Drained(n, i - 1, k);
      var x := Fold(Turn(SlowPass(n)), start, group[..i - 1]);
      MidwayOneMore(x, n, i - 1, k);
      DrainOneMore(SlowPass(n), start, group, i - 1, x);
    }
  }

  lemma {:induction false} AllOfOne(endpointOf: Id -> Id, due: seq<Id>, e: Id)
    requires forall k :: 0 <= k < |due| ==> endpointOf(due[k]) == e
    ensures Filter(Of(endpointOf, e), due) == due
  {
    if due != [] { AllOfOne(endpointOf, due[1..], e); }
  }

  /** All deliveries of one endpoint are one group. */
  lemma {:induction false} OneGroup(endpointOf: Id -> Id, due: seq<Id>, e: Id)
    requires due != [] && forall k :: 0 <= k < |due| ==> endpointOf(due[k]) == e
    ensures Distinct(endpointOf, due) == [e]
    decreases |due|
  {
    var front := due[..|due| - 1];
    if front == [] {
      assert Distinct(endpointOf, front) == [];
    } else {
      OneGroup(endpointOf, front, e);
    }
  }

  lemma PassOfOne(h: Hooks, due: seq<Id>, e: Id, pass: Pass)
    requires due != [] && BelongTo(h, due, e)
    ensures Passed(h, due, pass).hooks == Fold(Turn(pass), Starting(h, e), due).hooks
  {
    AllOfOne(EndpointOf(h), due, e);
    OneGroup(EndpointOf(h), due, e);
    var groups, start := GroupsOf(EndpointOf(h), due), Totals(h, 0, 0, 0);
    assert groups == [Group(e, due)] && groups[..0] == [] && groups[..1] == groups;
    ShareOneMore(pass, start, groups, 0, start);
  }

  /** `n` slow successes and five timeouts in one pass, with `extra` deliveries left for a later one. */
  function SlowSteps(n: nat, extra: nat): seq<Step> {
    Queueing(n + 5 + extra) + [PassMade(Ids(n + 5), SlowPass(n))]
  }

  lemma AllDue(n: nat, k: nat)
    requires n + 5 <= BATCH_SIZE && n + 5 <= k
    ensures IsDue(Queue(k), Ids(n + 5), 0) && BelongTo(Queue(k), Ids(n + 5), 0)
  {
  }

  predicate SlowEnd(h: Hooks, n: nat, extra: nat) {
    && |h.deliveries| == n + 5 + extra && h.log != []
    && h.endpoints == [Endpoint(true, Snapshot(Open, 5, Some(0)), true)]
    && h.log[|h.log| - 1] == Request(SlowPass(n), n + 4, 0, true)
    && (forall d :: n + 5 <= d < n + 5 + extra ==> h.deliveries[d] == FRESH)
  }

  lemma MidwayIsEnd(x: Draining, n: nat, extra: nat)
    requires Midway(x, n, n + 5, n + 5 + extra)
    ensures SlowEnd(x.hooks, n, extra)
  {
  }

  lemma SlowRun(n: nat, extra: nat)
    requires n + 5 <= BATCH_SIZE
    ensures SlowEnd(Run(NO_HOOKS, SlowSteps(n, extra)), n, extra)
  {
    var k, due := n + 5 + extra, Ids(n + 5);
    Queued(k);
    RunOneMore(NO_HOOKS, Queueing(k), PassMade(due, SlowPass(n)));
    AllDue(n, k);
    PassOfOne(Queue(k), due, 0, SlowPass(n));
    Drained(n, n + 5, k);
    assert due[..n + 5] == due;
    MidwayIsEnd(Fold(Turn(SlowPass(n)), Starting(Queue(k), 0), due), n, extra);
  }

  /**
   * After `n` successes of four seconds and five timeouts of five, all in one pass that began at 0,
   * the breaker is opened at 4 n + 25 seconds but admits again at 60: after five timeouts alone that
   * is 35 seconds later, and with thirteen successes before them there is no cooldown at all.
   */
  lemma SlowPassShortensTheCooldown(n: nat)
    requires n + 5 <= BATCH_SIZE
    ensures var h := Run(NO_HOOKS, SlowSteps(n, 0));
            && |h.endpoints| == 1 && h.endpoints[0].breaker.state == Open && Tripped(LastDial(h.log, 0))
            && var breaker, opening := h.endpoints[0].breaker, LastDial(h.log, 0).value;
            && opening.answered == 4000 * n + 25000
            && (forall t :: Admit(breaker, t).allow <==> t >= 60000)
            && (n == 0 ==> Admit(breaker, opening.answered + 35000).allow)
            && (Admit(breaker, opening.answered).allow <==> n >= 9)
  {
    SlowRun(n, 0);
    var h := Run(NO_HOOKS, SlowSteps(n, 0));
    assert LastDial(h.log, 0) == Some(h.log[|h.log| - 1]);
    StampDecides(h.endpoints[0].breaker, 0, 0, 0);
  }

  // ----- a probe that is lost

  /** An admitted request of a breaker that is not closed goes out under the breaker of the row. */
  lemma AdmittedUnderTheRow(h: Hooks, e: Id, group: seq<Id>, pass: Pass)
    requires e < |h.endpoints|
    ensures var x := Fold(Turn(pass), Starting(h, e), group);
            x.breaker == h.endpoints[e].breaker || x.breaker.state == Closed || x.breaker.openedAt == Some(pass.now)
  {
    var holds := (x: Draining, done: seq<Id>) =>
      x.breaker == h.endpoints[e].breaker || x.breaker.state == Closed || x.breaker.openedAt == Some(pass.now);
    forall x, done, d | holds(x, done)
      ensures holds(Turn(pass)(x, d), done + [d])
    {
    }
    FoldKeeps(Turn(pass), Starting(h, e), [], group, holds);
  }

  /** The pass is killed while a probe of the endpoint is out. */
  predicate LosesAProbe(h: Hooks, e: Id, group: seq<Id>, pass: Pass) {
    && IsShare(h, group, e, pass.now)
    && var x := BeforeTheEnd(h, e, group, pass);
    && !x.disabled && x.breaker.state != Closed && Admit(x.breaker, pass.now).allow
    && e < |x.hooks.endpoints| && x.hooks.endpoints[e].secretOpens
  }

  /**
   * In any run, a lost probe holds off the next one for a cooldown exactly when the breaker was open:
   * when it was half-open already, its old stamp stands and the next probe is admitted at once.
   */
  lemma LostProbe(steps: seq<Step>, e: Id, group: seq<Id>, pass: Pass)
    requires LosesAProbe(Run(NO_HOOKS, steps), e, group, pass)
    ensures var h, h' := Run(NO_HOOKS, steps), Run(NO_HOOKS, steps + [PassKilled(e, group, pass)]);
            && e < |h'.endpoints| == |h.endpoints| && h.endpoints[e].breaker.openedAt.Some?
            && var was, breaker := h.endpoints[e].breaker, h'.endpoints[e].breaker;
            && h'.log != [] && h'.log[|h'.log| - 1] == Unanswered(group[|group| - 1], e, pass.now)
            && (forall n :: Admit(breaker, n).allow <==>
                  n >= COOLDOWN_MS + if was.state == Open then pass.now else was.openedAt.value)
            && (HoldsOff(breaker, pass.now, COOLDOWN_MS) <==> was.state == Open)
            && (Admit(breaker, pass.now).allow <==> was.state == HalfOpen)
  {
    var h := Run(NO_HOOKS, steps);
    EveryRunIsSound(NO_HOOKS, steps);
    RunOneMore(NO_HOOKS, steps, PassKilled(e, group, pass));
    ShareIsReady(h, e, group, pass);
    DrainKeepsShape(h, Group(e, group[..|group| - 1]), pass);
    AdmittedUnderTheRow(h, e, group[..|group| - 1], pass);
    var x, was := BeforeTheEnd(h, e, group, pass), h.endpoints[e].breaker;
    assert BreakerKept(x.hooks, e) && x.breaker == was;
    var breaker := Cut(h, e, group, pass).endpoints[e].breaker;
    StampDecides(breaker, if was.state == Open then pass.now else was.openedAt.value, pass.now, COOLDOWN_MS);
  }

  /** A pass over delivery 5, which is never answered. */
  function ProbePass(now: Time): Pass {
    Pass(now, (d: Id) => None, (d: Id, attempts: nat) => 1, (d: Id) => now, (d: Id) => now + 5000)
  }

  function LostProbes(n: nat): seq<Step> {
    if n == 0 then SlowSteps(0, 1)
    else LostProbes(n - 1) + [PassKilled(0, [5], ProbePass(60000 * n))]
  }

  predicate LostEnd(h: Hooks, n: nat) {
    && |h.deliveries| == 6 && h.deliveries[5] == FRESH && h.log != []
    && var breaker := if n == 0 then Snapshot(Open, 5, Some(0)) else Snapshot(HalfOpen, 5, Some(60000));
    && h.endpoints == [Endpoint(true, breaker, true)]
    && (n > 0 ==> h.log[|h.log| - 1] == Unanswered(5, 0, 60000 * n))
  }

  lemma OneMoreLost(h: Hooks, n: nat)
    requires n < 2 && LostEnd(h, n)
    ensures LostEnd(WebhookRuns.Next(h, PassKilled(0, [5], ProbePass(60000 * n + 60000))), n + 1)
  {
    var pass := ProbePass(60000 * n + 60000);
    FiveIsDue(h, pass.now);
    assert [5 as Id][..0] == [];
    assert BeforeTheEnd(h, 0, [5], pass) == Starting(h, 0);
  }

  lemma FiveIsDue(h: Hooks, now: Time)
    requires |h.deliveries| == 6 && h.deliveries[5] == FRESH && |h.endpoints| == 1 && h.endpoints[0].active && now >= 0
    ensures IsDue(h, [5], now) && IsShare(h, [5], 0, now)
  {
  }

  /** Five timeouts, then `n` probes that are lost, one a minute. */
  lemma {:induction false} ProbesLost(n: nat)
    requires n <= 2
    ensures LostEnd(Run(NO_HOOKS, LostProbes(n)), n)
  {
    if n == 0 {
      SlowRun(0, 1);
    } else {
      ProbesLost(n - 1);
      RunOneMore(NO_HOOKS, LostProbes(n - 1), PassKilled(0, [5], ProbePass(60000 * n)));
      OneMoreLost(Run(NO_HOOKS, LostProbes(n - 1)), n - 1);
    }
  }

  lemma DrainOfFive(h: Hooks, pass: Pass)
    requires LostEnd(h, 2) && pass == ProbePass(120000)
    ensures Fold(Turn(pass), Starting(h, 0), [5]).hooks.log == h.log + [Request(pass, 5, 0, true)]
  {
    assert [5 as Id][1..] == [];
    assert Fold(Turn(pass), Starting(h, 0), [5]) == Turn(pass)(Starting(h, 0), 5);
  }

  /**
   * Five timeouts, a lost probe at 60 s, a second at 120 s: a third is let out at that same reading,
   * although circuit-breaker.ts promises that a lost probe costs one more cooldown.
   */
  lemma SecondLostProbeCostsNothing()
    ensures var h, pass := Run(NO_HOOKS, LostProbes(2)), ProbePass(120000);
            var h' := Run(NO_HOOKS, LostProbes(2) + [PassMade([5], pass)]);
            && h.log != [] && h.log[|h.log| - 1] == Unanswered(5, 0, 120000)
            && h'.log == h.log + [Request(pass, 5, 0, true)]
  {
    ProbesLost(2);
    var h, pass := Run(NO_HOOKS, LostProbes(2)), ProbePass(120000);
    RunOneMore(NO_HOOKS, LostProbes(2), PassMade([5], pass));
    FiveIsDue(h, 120000);
    PassOfOne(h, [5], 0, pass);
    DrainOfFive(h, pass);
  }
}
