/**
 * What becomes of a delivery: in one turn of a pass, when an event is emitted or a delivery replayed,
 * and for good once it is delivered.
 */
module WebhookOutcomes {
  import opened Prelude
  import opened CircuitBreaker
  import opened Webhook
  import opened WebhookRuns

  // ----- one turn

  /** Nothing but endpoint `e` and delivery `d` is touched. */
  ghost predicate OnlyRows(h: Hooks, h': Hooks, e: Id, d: Id) {
    && SameShape(h, h')
    && (forall i :: 0 <= i < |h.endpoints| && i != e ==> h'.endpoints[i] == h.endpoints[i])
    && (forall i :: 0 <= i < |h.deliveries| && i != d ==> h'.deliveries[i] == h.deliveries[i])
  }

  /** A delivery the breaker does not let through is due again at the first reading at which it would. */
  lemma ParkedUntilAdmitted(x: Draining, e: Id, d: Id, pass: Pass)
    requires Ready(x, e, d) && !x.disabled && !Admit(x.breaker, pass.now).allow
    ensures var x' := Turn(pass)(x, d);
            && x' == x.(hooks := x'.hooks, skipped := x.skipped + 1)
            && OnlyRows(x.hooks, x'.hooks, e, d) && x'.hooks.endpoints == x.hooks.endpoints &&
               x'.hooks.log == x.hooks.log
            && var row, row' := x.hooks.deliveries[d], x'.hooks.deliveries[d];
            && row' == row.(nextAttemptAt := row'.nextAttemptAt) && row'.nextAttemptAt > pass.now
            && forall n :: Admit(x.breaker, n).allow <==> n >= row'.nextAttemptAt
  {
    assert BreakerKept(x.hooks, e);
  }

  /** What an answer makes of a delivery, its endpoint and the breaker that is carried on. */
  lemma AnswerDecides(x: Draining, e: Id, d: Id, pass: Pass)
    requires Ready(x, e, d) && !x.disabled && Admit(x.breaker, pass.now).allow && x.hooks.endpoints[e].secretOpens
    ensures var x', code := Turn(pass)(x, d), pass.send(d);
            && |x'.hooks.deliveries| == |x.hooks.deliveries| && |x'.hooks.endpoints| == |x.hooks.endpoints|
            && x'.skipped == x.skipped
            && x'.hooks.log == x.hooks.log + [Request(pass, d, e, code != Some(410) && x'.breaker.state != Closed)]
            && var row, row', after := x.hooks.deliveries[d], x'.hooks.deliveries[d], x'.hooks.endpoints[e];
            && row'.endpoint == e && row'.attempts == row.attempts + 1 && row'.lastStatusCode == code
            && if code.Some? && 200 <= code.value <= 299 then
                 && OnlyRows(x.hooks, x'.hooks, e, d)
                 && row'.status == Delivered && row'.nextAttemptAt == row.nextAttemptAt
                 && x'.breaker == after.breaker == CLOSED_BREAKER && after.active == x.hooks.endpoints[e].active
                 && !x'.disabled && x'.delivered == x.delivered + 1 && x'.failed == x.failed
               else if code == Some(410) then
                 && !after.active && x'.disabled && x'.breaker == after.breaker
                 && x'.delivered == x.delivered && x'.failed == x.failed + 1
                 && row'.status == GaveUp && row'.nextAttemptAt == row.nextAttemptAt
                 && forall i :: 0 <= i < |x.hooks.deliveries| && i != d ==>
                      var other := x.hooks.deliveries[i];
                      x'.hooks.deliveries[i] == if other.endpoint == e && other.status == Pending
                                                then other.(status := GaveUp) else other
               else
                 && OnlyRows(x.hooks, x'.hooks, e, d)
                 && x'.breaker == after.breaker && after.active == x.hooks.endpoints[e].active
                 && x'.breaker == OnFailure(CarriedInto(x, pass.now), pass.now)
                 && !x'.disabled && x'.delivered == x.delivered && x'.failed == x.failed + 1
                 && if row.attempts + 1 >= 6 then row'.status == GaveUp && row'.nextAttemptAt == row.nextAttemptAt
                    else && row'.status == Pending
                         && row'.nextAttemptAt == pass.now + Max(1, pass.backoff(d, row.attempts + 1)) > pass.now
  {
    assert BreakerKept(x.hooks, e);
  }

  /** A secret that does not open ends a delivery without a request and without a word to the breaker. */
  lemma SecretStaysShut(x: Draining, e: Id, d: Id, pass: Pass)
    requires Ready(x, e, d) && !x.disabled && Admit(x.breaker, pass.now).allow && !x.hooks.endpoints[e].secretOpens
    ensures var x' := Turn(pass)(x, d);
            && OnlyRows(x.hooks, x'.hooks, e, d) && x'.hooks.log == x.hooks.log
            && x'.hooks.deliveries[d] == x.hooks.deliveries[d].(status := GaveUp)
            && x'.breaker.consecutiveFailures == x.breaker.consecutiveFailures
            && x' == x.(hooks := x'.hooks, breaker := x'.breaker, failed := x.failed + 1)
  {
  }

  // ----- events and replays

  function IsActive(h: Hooks): Id -> bool {
    (e: Id) => e < |h.endpoints| && h.endpoints[e].active
  }

  function Awaiting(targets: seq<Id>, now: Time): seq<Delivery> {
    seq(|targets|, i requires 0 <= i < |targets| => Delivery(targets[i], Pending, 0, now, None))
  }

  /** An event leaves one fresh delivery, due at once, for each subscriber that is active, in their order. */
  lemma {:induction false} EventIsQueued(h: Hooks, subscribed: seq<Id>, now: Time)
    ensures Emitted(h, subscribed, now) ==
            h.(deliveries := h.deliveries + Awaiting(Filter(IsActive(h), subscribed), now))
    decreases |subscribed|
  {
    if subscribed == [] {
      assert h.deliveries + Awaiting([], now) == h.deliveries;
    } else {
      var first := Delivery(subscribed[0], Pending, 0, now, None);
      var h1 := if IsActive(h)(subscribed[0]) then h.(deliveries := h.deliveries + [first]) else h;
      EventIsQueued(h1, subscribed[1..], now);
      SameFilter(h, h1, subscribed[1..]);
      var rest := Filter(IsActive(h), subscribed[1..]);
      if IsActive(h)(subscribed[0]) {
        assert Awaiting([subscribed[0]] + rest, now) == [first] + Awaiting(rest, now);
        Associates(h.deliveries, [first], Awaiting(rest, now));
      }
    }
  }

  lemma {:induction false} SameFilter(h: Hooks, h1: Hooks, ids: seq<Id>)
    requires h1.endpoints == h.endpoints
    ensures Filter(IsActive(h), ids) == Filter(IsActive(h1), ids)
  {
    if ids != [] { SameFilter(h, h1, ids[1..]); }
  }

  /** Only a delivery that gave up, of an active endpoint, is replayed: with all six attempts again, at once. */
  lemma ReplayOutcome(h: Hooks, d: Id, now: Time)
    requires Sound(h)
    ensures Replayed(h, d, now) == Err(NotFound) <==> d >= |h.deliveries|
    ensures Replayed(h, d, now) == Err(NotFailed) <==> d < |h.deliveries| && h.deliveries[d].status != GaveUp
    ensures Replayed(h, d, now).Ok? <==>
              && d < |h.deliveries| && h.deliveries[d].status == GaveUp
              && h.deliveries[d].endpoint < |h.endpoints| && !ToldToStop(h.log, h.deliveries[d].endpoint)
    ensures Replayed(h, d, now).Ok? ==>
              var h' := Replayed(h, d, now).value;
              && h'.endpoints == h.endpoints && h'.log == h.log + [Requeued(d)]
              && h'.deliveries == h.deliveries[d := Delivery(h.deliveries[d].endpoint, Pending, 0, now, None)]
  {
    if d < |h.deliveries| {
      assert BudgetKept(h, d) && GoneKept(h, h.deliveries[d].endpoint);
    }
  }

  // ----- delivered for good

  /** The row stays as it is and the log has nothing more to say of it. */
  ghost predicate LeftAlone(h: Hooks, h': Hooks, d: Id) {
    && d < |h.deliveries| <= |h'.deliveries| && h'.deliveries[d] == h.deliveries[d]
    && h.log <= h'.log
    && forall k :: |h.log| <= k < |h'.log| ==> h'.log[k].delivery != d
  }

  lemma LeftAloneTwice(h: Hooks, h1: Hooks, h2: Hooks, d: Id)
    requires LeftAlone(h, h1, d) && LeftAlone(h1, h2, d)
    ensures LeftAlone(h, h2, d)
  {
    forall k | |h.log| <= k < |h2.log| ensures h2.log[k].delivery != d {
      if k < |h1.log| { assert h1.log[k] == h2.log[k]; }
    }
  }

  lemma TurnLeavesAlone(x: Draining, other: Id, d: Id, pass: Pass)
    requires d < |x.hooks.deliveries| && x.hooks.deliveries[d].status != Pending && other != d
    ensures LeftAlone(x.hooks, Turn(pass)(x, other).hooks, d)
  {
  }

  lemma {:induction false} DrainLeavesAlone(x: Draining, group: seq<Id>, d: Id, pass: Pass)
    requires d < |x.hooks.deliveries| && x.hooks.deliveries[d].status != Pending && d !in group
    ensures LeftAlone(x.hooks, Fold(Turn(pass), x, group).hooks, d)
    decreases |group|
  {
    if group != [] {
      var x1 := Turn(pass)(x, group[0]);
      TurnLeavesAlone(x, group[0], d, pass);
      DrainLeavesAlone(x1, group[1..], d, pass);
      LeftAloneTwice(x.hooks, x1.hooks, Fold(Turn(pass), x1, group[1..]).hooks, d);
    }
  }

  lemma {:induction false} SharesLeaveAlone(t: Totals, groups: seq<Group>, d: Id, pass: Pass)
    requires d < |t.hooks.deliveries| && t.hooks.deliveries[d].status != Pending
    requires forall i :: 0 <= i < |groups| ==> d !in groups[i].deliveries
    ensures LeftAlone(t.hooks, Fold(Share(pass), t, groups).hooks, d)
    decreases |groups|
  {
    if groups != [] {
      var t1 := Share(pass)(t, groups[0]);
      if groups[0].endpoint < |t.hooks.endpoints| {
        DrainLeavesAlone(Starting(t.hooks, groups[0].endpoint), groups[0].deliveries, d, pass);
      }
      SharesLeaveAlone(t1, groups[1..], d, pass);
      LeftAloneTwice(t.hooks, t1.hooks, Fold(Share(pass), t1, groups[1..]).hooks, d);
    }
  }

  lemma PassLeavesAlone(h: Hooks, due: seq<Id>, d: Id, pass: Pass)
    requires IsDue(h, due, pass.now) && d < |h.deliveries| && h.deliveries[d].status != Pending
    ensures LeftAlone(h, Passed(h, due, pass).hooks, d)
  {
    var owner := EndpointOf(h);
    var groups := GroupsOf(owner, due);
    forall i | 0 <= i < |groups| ensures d !in groups[i].deliveries {
      if k :| 0 <= k < |groups[i].deliveries| && groups[i].deliveries[k] == d {
        FilteredAreThere(Of(owner, groups[i].endpoint), due, k);
      }
    }
    SharesLeaveAlone(Totals(h, 0, 0, 0), groups, d, pass);
  }

  lemma CutLeavesAlone(h: Hooks, e: Id, group: seq<Id>, d: Id, pass: Pass)
    requires IsShare(h, group, e, pass.now) && d < |h.deliveries| && h.deliveries[d].status != Pending
    ensures LeftAlone(h, Cut(h, e, group, pass), d)
  {
    assert d !in group;
    DrainLeavesAlone(Starting(h, e), group[..|group| - 1], d, pass);
    var x, last := BeforeTheEnd(h, e, group, pass), group[|group| - 1];
    assert last in group;
    if last < |x.hooks.deliveries| && x.hooks.deliveries[last].endpoint < |x.hooks.endpoints| {
      assert LeftAlone(x.hooks, Killed(x, last, pass), d);
      LeftAloneTwice(h, x.hooks, Killed(x, last, pass), d);
    }
  }

  lemma StepLeavesAlone(h: Hooks, step: Step, d: Id)
    requires d < |h.deliveries| && h.deliveries[d].status == Delivered
    ensures LeftAlone(h, WebhookRuns.Next(h, step), d)
  {
    match step
    case EndpointRegistered(_) =>
    case EventEmitted(subscribed, now) => EventIsQueued(h, subscribed, now);
    case DeliveryReplayed(_, _) =>
    case PassMade(due, pass) => if IsDue(h, due, pass.now) { PassLeavesAlone(h, due, d, pass); }
    case PassKilled(e, group, pass) => if IsShare(h, group, e, pass.now) { CutLeavesAlone(h, e, group, d, pass); }
  }

  /** A delivery that has been delivered is never sent or queued again, whatever happens. */
  lemma {:induction false} DeliveredForGood(h: Hooks, steps: seq<Step>, d: Id)
    requires d < |h.deliveries| && h.deliveries[d].status == Delivered
    ensures LeftAlone(h, Run(h, steps), d)
    decreases |steps|
  {
    if steps != [] {
      var h1 := WebhookRuns.Next(h, steps[0]);
      StepLeavesAlone(h, steps[0], d);
      DeliveredForGood(h1, steps[1..], d);
      LeftAloneTwice(h, h1, Run(h1, steps[1..]), d);
    }
  }
}
