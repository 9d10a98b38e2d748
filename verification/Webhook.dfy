/**
 * Webhook delivery: apps/api/src/services/webhook.service.ts and the queries of
 * apps/api/src/repositories/webhook.repository.ts.
 *
 * Rows are never deleted here, so an id is a place in a table. `log` is history that the service
 * does not keep: every request that left, and every manual replay.
 */
module Webhook {
  import opened Prelude
  import opened CircuitBreaker

  type Id = nat

  const MAX_ATTEMPTS := 6

  datatype Status = Pending | Delivered | GaveUp

  /** `GaveUp` is the source's FAILED. */
  datatype Delivery =
    Delivery(endpoint: Id, status: Status, attempts: nat, nextAttemptAt: Time, lastStatusCode: Option<int>)

  /** `secretOpens`: the stored signing secret can be decrypted with the configured key. */
  datatype Endpoint = Endpoint(active: bool, breaker: Snapshot, secretOpens: bool)

  /**
   * A request that was answered in a pass that had `read` the clock when it began: it really left and
   * was answered later, with a status code or none. `tripped`: the answer opened the endpoint's
   * breaker, or opened it again. An
   * `Unanswered` one may have left, but its pass was killed before the answer was recorded.
   */
  datatype Entry =
    | Dialled(delivery: Id, endpoint: Id, read: Time, left: Time, answered: Time, code: Option<int>, tripped: bool)
    | Unanswered(delivery: Id, endpoint: Id, read: Time)
    | Requeued(delivery: Id)

  datatype Hooks = Hooks(endpoints: seq<Endpoint>, deliveries: seq<Delivery>, log: seq<Entry>)

  /** What the world answers to a delivery in one pass: a status code, or nothing. */
  type Transport = Id -> Option<int>

  /** The jittered delay after an attempt; at least a millisecond. */
  type Backoff = (Id, nat) -> nat

  predicate IsSuccess(code: Option<int>) {
    code.Some? && 200 <= code.value < 300
  }

  predicate IsGone(code: Option<int>) {
    code == Some(410)
  }

  // ----- one attempt

  function FailAllPending(deliveries: seq<Delivery>, endpoint: Id): seq<Delivery> {
    seq(|deliveries|, i requires 0 <= i < |deliveries| =>
      if deliveries[i].endpoint == endpoint && deliveries[i].status == Pending
      then deliveries[i].(status := GaveUp) else deliveries[i])
  }

  /**
   * Everything one pass is given: the clock as read once, when it begins, the answers and the delays;
   * and when each request really leaves and is answered, which the pass does not look at.
   */
  datatype Pass = Pass(now: Time, send: Transport, backoff: Backoff, leaves: Id -> Time, answers: Id -> Time)

  /** The history entry of a request of the pass. */
  function Request(pass: Pass, d: Id, e: Id, tripped: bool): Entry {
    Dialled(d, e, pass.now, pass.leaves(d), pass.answers(d), pass.send(d), tripped)
  }

  /** The rows after an answer; `breaker` is what the pass carries, not what the row says. */
  function Answered(h: Hooks, d: Id, breaker: Snapshot, pass: Pass): Hooks
    requires d < |h.deliveries| && h.deliveries[d].endpoint < |h.endpoints|
  {
    var row, e, code := h.deliveries[d], h.deliveries[d].endpoint, pass.send(d);
    var attempts := row.attempts + 1;
    if IsSuccess(code) then
      Hooks(h.endpoints[e := h.endpoints[e].(breaker := OnSuccess(breaker))],
            h.deliveries[d := row.(status := Delivered, attempts := attempts, lastStatusCode := code)],
            h.log + [Request(pass, d, e, false)])
    else if IsGone(code) then
      Hooks(h.endpoints[e := h.endpoints[e].(active := false)],
            FailAllPending(h.deliveries[d := row.(status := GaveUp, attempts := attempts, lastStatusCode := code)], e),
            h.log + [Request(pass, d, e, false)])
    else
      var next := OnFailure(breaker, pass.now);
      var tried := row.(attempts := attempts, lastStatusCode := code);
      var later := pass.now + Max(1, pass.backoff(d, attempts));
      Hooks(h.endpoints[e := h.endpoints[e].(breaker := next)],
            h.deliveries[d := if attempts >= MAX_ATTEMPTS then tried.(status := GaveUp)
                              else tried.(status := Pending, nextAttemptAt := later)],
            h.log + [Request(pass, d, e, next.state != Closed)])
  }

  // ----- one endpoint's share of a pass

  datatype Draining =
    Draining(hooks: Hooks, breaker: Snapshot, disabled: bool, delivered: nat, failed: nat, skipped: nat)

  /** The breaker as it is carried into an attempt; a change of its state is written to the row first. */
  function CarriedInto(x: Draining, now: Time): Snapshot {
    var next := Admit(x.breaker, now).next;
    if next.state != x.breaker.state then next else x.breaker
  }

  function Persisted(h: Hooks, e: Id, breaker: Snapshot): Hooks
    requires e < |h.endpoints|
  {
    h.(endpoints := h.endpoints[e := h.endpoints[e].(breaker := breaker)])
  }

  function Attempted(x: Draining, d: Id, pass: Pass): Draining
    requires d < |x.hooks.deliveries| && x.hooks.deliveries[d].endpoint < |x.hooks.endpoints|
  {
    var e, code := x.hooks.deliveries[d].endpoint, pass.send(d);
    var breaker := CarriedInto(x, pass.now);
    var h := if breaker.state != x.breaker.state then Persisted(x.hooks, e, breaker) else x.hooks;
    if !h.endpoints[e].secretOpens then
      Draining(h.(deliveries := h.deliveries[d := h.deliveries[d].(status := GaveUp)]), breaker, false,
               x.delivered, x.failed + 1, x.skipped)
    else if IsSuccess(code) then
      Draining(Answered(h, d, breaker, pass), OnSuccess(breaker), false,
               x.delivered + 1, x.failed, x.skipped)
    else
      Draining(Answered(h, d, breaker, pass),
               if IsGone(code) then breaker else OnFailure(breaker, pass.now), IsGone(code),
               x.delivered, x.failed + 1, x.skipped)
  }

  /** One turn of the loop in `drainEndpoint`; what is not a row is never in a group. */
  function Turn(pass: Pass): (Draining, Id) -> Draining {
    (x: Draining, d: Id) =>
      if x.disabled || d >= |x.hooks.deliveries| || x.hooks.deliveries[d].endpoint >= |x.hooks.endpoints| then
        x.(skipped := x.skipped + 1)
      else
        var decision := Admit(x.breaker, pass.now);
        if !decision.allow then
          var at := if decision.retryAt.Some? then decision.retryAt.value else pass.now + 1000;
          x.(hooks := x.hooks.(deliveries := x.hooks.deliveries[d := x.hooks.deliveries[d].(nextAttemptAt := at)]),
             skipped := x.skipped + 1)
        else Attempted(x, d, pass)
  }

  /**
   * A turn whose pass is killed once the breaker has let the delivery through: the breaker may have
   * been written, the answer has not.
   */
  function Killed(x: Draining, d: Id, pass: Pass): Hooks
    requires d < |x.hooks.deliveries| && x.hooks.deliveries[d].endpoint < |x.hooks.endpoints|
  {
    if x.disabled || !Admit(x.breaker, pass.now).allow then x.hooks
    else
      var e, breaker := x.hooks.deliveries[d].endpoint, CarriedInto(x, pass.now);
      var h := if breaker.state != x.breaker.state then Persisted(x.hooks, e, breaker) else x.hooks;
      if h.endpoints[e].secretOpens then h.(log := h.log + [Unanswered(d, e, pass.now)]) else h
  }

  /** How a delivery is counted. */
  datatype Tally = Sent | NotSent | Skipped

  function Counted(x: Draining, tally: Tally): Draining {
    match tally
    case Sent => x.(delivered := x.delivered + 1)
    case NotSent => x.(failed := x.failed + 1)
    case Skipped => x.(skipped := x.skipped + 1)
  }

  /** A turn does not look at the tallies, it only adds to one of them. */
  lemma TurnAddsUp(x: Draining, d: Id, pass: Pass, after: Draining, tally: Tally)
    requires Turn(pass)(x.(delivered := 0, failed := 0, skipped := 0), d) ==
             Counted(after.(delivered := 0, failed := 0, skipped := 0), tally)
    requires after.delivered == x.delivered && after.failed == x.failed && after.skipped == x.skipped
    ensures Turn(pass)(x, d) == Counted(after, tally)
  {
  }

  lemma DrainOneMore(pass: Pass, start: Draining, group: seq<Id>, i: nat, x: Draining)
    requires i < |group| && x == Fold(Turn(pass), start, group[..i])
    ensures Fold(Turn(pass), start, group[..i + 1]) == Turn(pass)(x, group[i])
  {
    assert group[..i + 1] == group[..i] + [group[i]];
    FoldOneMore(Turn(pass), start, group[..i], group[i]);
  }

  function Starting(h: Hooks, e: Id): Draining
    requires e < |h.endpoints|
  {
    Draining(h, h.endpoints[e].breaker, false, 0, 0, 0)
  }

  /** The deliveries of one endpoint. */
  predicate BelongTo(h: Hooks, group: seq<Id>, e: Id) {
    && e < |h.endpoints|
    && forall k :: 0 <= k < |group| ==> group[k] < |h.deliveries| && h.deliveries[group[k]].endpoint == e
  }

  // ----- a whole pass

  datatype Group = Group(endpoint: Id, deliveries: seq<Id>)

  predicate AllRows(h: Hooks, due: seq<Id>) {
    forall k :: 0 <= k < |due| ==> due[k] < |h.deliveries| && h.deliveries[due[k]].endpoint < |h.endpoints|
  }

  function EndpointOf(h: Hooks): Id -> Id {
    (d: Id) => if d < |h.deliveries| then h.deliveries[d].endpoint else 0
  }

  function Of(endpointOf: Id -> Id, e: Id): Id -> bool {
    (d: Id) => endpointOf(d) == e
  }

  /** The endpoints of some deliveries, in order of first appearance. */
  function Distinct(endpointOf: Id -> Id, due: seq<Id>): seq<Id> {
    if due == [] then []
    else
      var front, e := Distinct(endpointOf, due[..|due| - 1]), endpointOf(due[|due| - 1]);
      if e in front then front else front + [e]
  }

  function GroupsOf(endpointOf: Id -> Id, due: seq<Id>): seq<Group> {
    var keys := Distinct(endpointOf, due);
    seq(|keys|, k requires 0 <= k < |keys| => Group(keys[k], Filter(Of(endpointOf, keys[k]), due)))
  }

  lemma {:induction false} NotYetSeen(endpointOf: Id -> Id, due: seq<Id>, e: Id)
    ensures e in Distinct(endpointOf, due) <==> Filter(Of(endpointOf, e), due) != []
  {
    if due != [] {
      var front, last := due[..|due| - 1], due[|due| - 1];
      NotYetSeen(endpointOf, front, e);
      assert due == front + [last];
      FilterConcat(Of(endpointOf, e), front, [last]);
      assert [last][1..] == [];
    }
  }

  datatype Totals = Totals(hooks: Hooks, delivered: nat, failed: nat, skipped: nat)

  function Share(pass: Pass): (Totals, Group) -> Totals {
    (t: Totals, g: Group) =>
      if g.endpoint >= |t.hooks.endpoints| then t
      else
        var x := Fold(Turn(pass), Starting(t.hooks, g.endpoint), g.deliveries);
        Totals(x.hooks, t.delivered + x.delivered, t.failed + x.failed, t.skipped + x.skipped)
  }

  function Passed(h: Hooks, due: seq<Id>, pass: Pass): Totals {
    Fold(Share(pass), Totals(h, 0, 0, 0), GroupsOf(EndpointOf(h), due))
  }

  lemma ShareOneMore(pass: Pass, start: Totals, groups: seq<Group>, i: nat, t: Totals)
    requires i < |groups| && t == Fold(Share(pass), start, groups[..i])
    ensures Fold(Share(pass), start, groups[..i + 1]) == Share(pass)(t, groups[i])
  {
    assert groups[..i + 1] == groups[..i] + [groups[i]];
    FoldOneMore(Share(pass), start, groups[..i], groups[i]);
  }

  /** No row comes, goes or changes its endpoint. */
  predicate SameShape(h: Hooks, h': Hooks) {
    && |h'.endpoints| == |h.endpoints| && |h'.deliveries| == |h.deliveries|
    && forall i :: 0 <= i < |h.deliveries| ==> h'.deliveries[i].endpoint == h.deliveries[i].endpoint
  }

  lemma TurnKeepsShape(x: Draining, d: Id, pass: Pass)
    ensures SameShape(x.hooks, Turn(pass)(x, d).hooks)
  {
  }

  lemma DrainKeepsShape(h: Hooks, g: Group, pass: Pass)
    requires g.endpoint < |h.endpoints|
    ensures SameShape(h, Fold(Turn(pass), Starting(h, g.endpoint), g.deliveries).hooks)
  {
    var holds := (x: Draining, done: seq<Id>) => SameShape(h, x.hooks);
    forall x, done, d | holds(x, done)
      ensures holds(Turn(pass)(x, d), done + [d])
    {
      TurnKeepsShape(x, d, pass);
    }
    FoldKeeps(Turn(pass), Starting(h, g.endpoint), [], g.deliveries, holds);
  }

  lemma {:induction false} FilteredAreThere<T>(p: T -> bool, items: seq<T>, k: nat)
    requires k < |Filter(p, items)|
    ensures Filter(p, items)[k] in items && p(Filter(p, items)[k])
  {
    if p(items[0]) {
      if k > 0 { FilteredAreThere(p, items[1..], k - 1); }
    } else {
      FilteredAreThere(p, items[1..], k);
    }
  }

  lemma GroupBelongs(start: Hooks, h: Hooks, due: seq<Id>, i: nat)
    requires AllRows(start, due) && SameShape(start, h) && i < |GroupsOf(EndpointOf(start), due)|
    ensures var g := GroupsOf(EndpointOf(start), due)[i];
            g.endpoint < |h.endpoints| && BelongTo(h, g.deliveries, g.endpoint)
  {
    var g := GroupsOf(EndpointOf(start), due)[i];
    forall k | 0 <= k < |g.deliveries|
      ensures g.deliveries[k] in due && EndpointOf(start)(g.deliveries[k]) == g.endpoint
    {
      FilteredAreThere(Of(EndpointOf(start), g.endpoint), due, k);
    }
    NotYetSeen(EndpointOf(start), due, g.endpoint);
    assert g.endpoint in Distinct(EndpointOf(start), due);
    assert g.deliveries[0] in due;
  }

  // ----- what else writes these rows

  function Registered(h: Hooks, secretOpens: bool): Hooks {
    h.(endpoints := h.endpoints + [Endpoint(true, CLOSED_BREAKER, secretOpens)])
  }

  /** `enqueueWebhookEvent`: one delivery for each subscribed endpoint that is active. */
  function Emitted(h: Hooks, subscribed: seq<Id>, now: Time): Hooks
    decreases |subscribed|
  {
    if subscribed == [] then h
    else if subscribed[0] < |h.endpoints| && h.endpoints[subscribed[0]].active then
      Emitted(h.(deliveries := h.deliveries + [Delivery(subscribed[0], Pending, 0, now, None)]), subscribed[1..], now)
    else Emitted(h, subscribed[1..], now)
  }

  datatype ReplayError = NotFound | NotFailed | EndpointDisabled

  /** `replayDelivery`: a delivery that gave up gets a whole new budget. */
  function Replayed(h: Hooks, d: Id, now: Time): Result<Hooks, ReplayError> {
    if d >= |h.deliveries| || h.deliveries[d].endpoint >= |h.endpoints| then Err(NotFound)
    else if h.deliveries[d].status != GaveUp then Err(NotFailed)
    else if !h.endpoints[h.deliveries[d].endpoint].active then Err(EndpointDisabled)
    else
      Ok(h.(deliveries := h.deliveries[d := h.deliveries[d].(status := Pending, attempts := 0, nextAttemptAt := now,
                                                            lastStatusCode := None)],
            log := h.log + [Requeued(d)]))
  }

  class WebhookDb {
    var endpoints: seq<Endpoint>
    var deliveries: seq<Delivery>
    ghost var log: seq<Entry>

    ghost function View(): Hooks
      reads this
    {
      Hooks(endpoints, deliveries, log)
    }

    method FailPendingForEndpoint(e: Id)
      modifies `deliveries
      ensures deliveries == FailAllPending(old(deliveries), e)
    {
      var before := deliveries;
      for i := 0 to |before|
        invariant |deliveries| == |before|
        invariant deliveries[..i] == FailAllPending(before, e)[..i] && deliveries[i..] == before[i..]
      {
        assert deliveries[i] == deliveries[i..][0];
        if deliveries[i].endpoint == e && deliveries[i].status == Pending {
          deliveries := deliveries[i := deliveries[i].(status := GaveUp)];
        }
        assert deliveries[i + 1..] == before[i..][1..];
      }
    }

    /** `attemptDelivery`, with the answer the transport gave. */
    method AttemptDelivery(d: Id, breaker: Snapshot, pass: Pass)
      returns (ok: bool, next: Snapshot, endpointDisabled: bool)
      requires d < |deliveries| && deliveries[d].endpoint < |endpoints|
      modifies this
      ensures var e, code := old(deliveries[d].endpoint), pass.send(d);
              if !old(endpoints)[e].secretOpens then
                && View() == old(View()).(deliveries := old(deliveries)[d := old(deliveries[d]).(status := GaveUp)])
                && !ok && next == breaker && !endpointDisabled
              else
                && View() == Answered(old(View()), d, breaker, pass)
                && ok == IsSuccess(code) && endpointDisabled == IsGone(code)
                && next == if ok then OnSuccess(breaker)
                           else if endpointDisabled then breaker else OnFailure(breaker, pass.now)
    {
      var e := deliveries[d].endpoint;
      if !endpoints[e].secretOpens {
        deliveries := deliveries[d := deliveries[d].(status := GaveUp)];
        return false, breaker, false;
      }
      var code := pass.send(d);
      var attempts := deliveries[d].attempts + 1;
      if code.Some? && code.value >= 200 && code.value < 300 {
        deliveries :=
          deliveries[d := deliveries[d].(status := Delivered, attempts := attempts, lastStatusCode := code)];
        next := OnSuccess(breaker);
        endpoints := endpoints[e := endpoints[e].(breaker := next)];
        log := log + [Request(pass, d, e, false)];
        return true, next, false;
      }
      if code == Some(410) {
        endpoints := endpoints[e := endpoints[e].(active := false)];
        deliveries := deliveries[d := deliveries[d].(status := GaveUp, attempts := attempts, lastStatusCode := code)];
        FailPendingForEndpoint(e);
        log := log + [Request(pass, d, e, false)];
        return false, breaker, true;
      }
      var tried := deliveries[d].(attempts := attempts, lastStatusCode := code);
      if attempts >= MAX_ATTEMPTS {
        deliveries := deliveries[d := tried.(status := GaveUp)];
      } else {
        var delay := Max(1, pass.backoff(d, attempts));
        deliveries := deliveries[d := tried.(status := Pending, nextAttemptAt := pass.now + delay)];
      }
      next := OnFailure(breaker, pass.now);
      endpoints := endpoints[e := endpoints[e].(breaker := next)];
      log := log + [Request(pass, d, e, next.state != Closed)];
      return false, next, false;
    }

    /** One turn of the loop in `drainEndpoint`, with the breaker the pass carries. */
    method TakeTurn(d: Id, carried: Snapshot, disabled: bool, pass: Pass)
      returns (tally: Tally, next: Snapshot, nowDisabled: bool)
      requires d < |deliveries| && deliveries[d].endpoint < |endpoints|
      modifies this
      ensures Turn(pass)(Draining(old(View()), carried, disabled, 0, 0, 0), d) ==
              Counted(Draining(View(), next, nowDisabled, 0, 0, 0), tally)
    {
      if disabled { return Skipped, carried, true; }
      var decision := Admit(carried, pass.now);
      if !decision.allow {
        var at := if decision.retryAt.Some? then decision.retryAt.value else pass.now + 1000;
        deliveries := deliveries[d := deliveries[d].(nextAttemptAt := at)];
        return Skipped, carried, false;
      }
      var breaker, e := carried, deliveries[d].endpoint;
      if decision.next.state != carried.state {
        breaker := decision.next;
        endpoints := endpoints[e := endpoints[e].(breaker := breaker)];
      }
      var ok;
      ok, next, nowDisabled := AttemptDelivery(d, breaker, pass);
      tally := if ok then Sent else NotSent;
    }

    method DrainEndpoint(e: Id, group: seq<Id>, pass: Pass) returns (delivered: nat, failed: nat, skipped: nat)
      requires BelongTo(View(), group, e)
      modifies this
      ensures var x := Fold(Turn(pass), Starting(old(View()), e), group);
              View() == x.hooks && delivered == x.delivered && failed == x.failed && skipped == x.skipped
    {
      ghost var start := Starting(View(), e);
      var breaker, disabled := endpoints[e].breaker, false;
      delivered, failed, skipped := 0, 0, 0;
      for i := 0 to |group|
        invariant SameShape(start.hooks, View())
        invariant Draining(View(), breaker, disabled, delivered, failed, skipped) == Fold(Turn(pass), start, group[..i])
      {
        ghost var x := Draining(View(), breaker, disabled, delivered, failed, skipped);
        DrainOneMore(pass, start, group, i, x);
        TurnKeepsShape(x, group[i], pass);
        var tally;
        tally, breaker, disabled := TakeTurn(group[i], breaker, disabled, pass);
        TurnAddsUp(x, group[i], pass, Draining(View(), breaker, disabled, delivered, failed, skipped), tally);
        match tally {
          case Sent => delivered := delivered + 1;
          case NotSent => failed := failed + 1;
          case Skipped => skipped := skipped + 1;
        }
      }
      assert group[..|group|] == group;
    }

    /** `byEndpoint`: the endpoints in order of first appearance, each with its deliveries in order. */
    method ByEndpoint(due: seq<Id>) returns (groups: seq<Group>)
      requires AllRows(View(), due)
      ensures groups == GroupsOf(EndpointOf(View()), due)
    {
      var keys: seq<Id>, lists: map<Id, seq<Id>> := [], map[];
      ghost var owner := EndpointOf(View());
      for i := 0 to |due|
        invariant keys == Distinct(owner, due[..i])
        invariant forall e :: e in lists <==> e in keys
        invariant forall e :: e in lists ==> lists[e] == Filter(Of(owner, e), due[..i])
      {
        var d := due[i];
        var e := deliveries[d].endpoint;
        assert due[..i + 1] == due[..i] + [d] && due[..i + 1][..i] == due[..i];
        forall k: Id
          ensures Filter(Of(owner, k), due[..i + 1]) == Filter(Of(owner, k), due[..i]) + if k == e then [d] else []
        {
          FilterConcat(Of(owner, k), due[..i], [d]);
          assert [d][1..] == [];
        }
        if e in lists {
          lists := lists[e := lists[e] + [d]];
        } else {
          NotYetSeen(owner, due[..i], e);
          keys := keys + [e];
          lists := lists[e := [d]];
        }
      }
      assert due[..|due|] == due;
      groups := seq(|keys|, k requires 0 <= k < |keys| => Group(keys[k], lists[keys[k]]));
    }

    /** `deliverDue`, one group after another. */
    method DeliverDue(due: seq<Id>, pass: Pass) returns (delivered: nat, failed: nat, skipped: nat)
      requires AllRows(View(), due)
      modifies this
      ensures Passed(old(View()), due, pass) == Totals(View(), delivered, failed, skipped)
    {
      var groups := ByEndpoint(due);
      delivered, failed, skipped := 0, 0, 0;
      ghost var start := Totals(View(), 0, 0, 0);
      for i := 0 to |groups|
        invariant Fold(Share(pass), start, groups[..i]) == Totals(View(), delivered, failed, skipped)
        invariant SameShape(start.hooks, View())
      {
        ShareOneMore(pass, start, groups, i, Totals(View(), delivered, failed, skipped));
        GroupBelongs(start.hooks, View(), due, i);
        DrainKeepsShape(View(), groups[i], pass);
        var d, f, s := DrainEndpoint(groups[i].endpoint, groups[i].deliveries, pass);
        delivered, failed, skipped := delivered + d, failed + f, skipped + s;
      }
      assert groups[..|groups|] == groups;
    }

    method Emit(subscribed: seq<Id>, now: Time) returns (written: nat)
      modifies `deliveries
      ensures View() == Emitted(old(View()), subscribed, now)
      ensures |deliveries| == |old(deliveries)| + written
    {
      written := 0;
      for i := 0 to |subscribed|
        invariant Emitted(View(), subscribed[i..], now) == Emitted(old(View()), subscribed, now)
        invariant |deliveries| == |old(deliveries)| + written
      {
        assert subscribed[i..][1..] == subscribed[i + 1..];
        if subscribed[i] < |endpoints| && endpoints[subscribed[i]].active {
          deliveries := deliveries + [Delivery(subscribed[i], Pending, 0, now, None)];
          written := written + 1;
        }
      }
    }

    method ReplayDelivery(d: Id, now: Time) returns (error: Option<ReplayError>)
      modifies this
      ensures match Replayed(old(View()), d, now)
              case Ok(h) => error == None && View() == h
              case Err(e) => error == Some(e) && View() == old(View())
    {
      if d >= |deliveries| || deliveries[d].endpoint >= |endpoints| { return Some(NotFound); }
      if deliveries[d].status != GaveUp { return Some(NotFailed); }
      if !endpoints[deliveries[d].endpoint].active { return Some(EndpointDisabled); }
      deliveries := deliveries[d := deliveries[d].(status := Pending, attempts := 0, nextAttemptAt := now,
                                                   lastStatusCode := None)];
      log := log + [Requeued(d)];
      return None;
    }
  }
}
