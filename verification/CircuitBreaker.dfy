/**
 * The circuit breaker of one webhook endpoint: packages/analytics/src/circuit-breaker.ts.
 *
 * Times are milliseconds of any clock; nothing here requires it to move forwards.
 */
module CircuitBreaker {
  import opened Prelude

  type Time = int

  const FAILURE_THRESHOLD := 5
  const COOLDOWN_MS := 60000

  datatype BreakerState = Closed | Open | HalfOpen

  datatype Snapshot = Snapshot(state: BreakerState, consecutiveFailures: nat, openedAt: Option<Time>)

  const CLOSED_BREAKER := Snapshot(Closed, 0, None)

  datatype Decision = Decision(allow: bool, next: Snapshot, retryAt: Option<Time>)

  function Admit(s: Snapshot, now: Time): Decision {
    if s.state == Closed then Decision(true, s, None)
    else
      var openedAt := if s.openedAt.Some? then s.openedAt.value else now;
      if now - openedAt < COOLDOWN_MS then Decision(false, s, Some(openedAt + COOLDOWN_MS))
      else Decision(true, s.(state := HalfOpen, openedAt := Some(now)), None)
  }

  function OnSuccess(s: Snapshot): Snapshot {
    CLOSED_BREAKER
  }

  function OnFailure(s: Snapshot, now: Time): Snapshot {
    var failures := s.consecutiveFailures + 1;
    if s.state == HalfOpen || failures >= FAILURE_THRESHOLD then Snapshot(Open, failures, Some(now))
    else Snapshot(Closed, failures, None)
  }

  /** Closed means fewer than five failures and no opening; otherwise at least five and a stamp. */
  predicate Consistent(s: Snapshot) {
    if s.state == Closed then s.consecutiveFailures < FAILURE_THRESHOLD && s.openedAt == None
    else s.consecutiveFailures >= FAILURE_THRESHOLD && s.openedAt.Some?
  }

  /** What may happen to a breaker: a request is asked for, or the answer to one comes in. */
  datatype Event = Asked(now: Time) | Succeeded | Failed(now: Time)

  function Next(s: Snapshot, event: Event): Snapshot {
    match event
    case Asked(now) => Admit(s, now).next
    case Succeeded => OnSuccess(s)
    case Failed(now) => OnFailure(s, now)
  }

  function After(s: Snapshot, events: seq<Event>): Snapshot
    decreases |events|
  {
    if events == [] then s else After(Next(s, events[0]), events[1..])
  }

  /** Every breaker state that can come about is consistent, whatever the clock does. */
  lemma {:induction false} AlwaysConsistent(s: Snapshot, events: seq<Event>)
    requires Consistent(s)
    ensures Consistent(After(s, events))
    decreases |events|
  {
    if events != [] { AlwaysConsistent(Next(s, events[0]), events[1..]); }
  }

  /** The failures since the last success: the breaker counts exactly these, and asking does not matter. */
  function FailuresInARow(before: nat, events: seq<Event>): nat
    decreases |events|
  {
    if events == [] then before
    else
      match events[0]
      case Asked(_) => FailuresInARow(before, events[1..])
      case Succeeded => FailuresInARow(0, events[1..])
      case Failed(_) => FailuresInARow(before + 1, events[1..])
  }

  /**
   * Over any history a breaker is closed exactly when fewer than five requests in a row have failed:
   * no cooldown, probe or clock reading closes it, only a success does.
   */
  lemma {:induction false} ClosedUntilFiveInARow(s: Snapshot, events: seq<Event>)
    requires Consistent(s)
    ensures After(s, events).consecutiveFailures == FailuresInARow(s.consecutiveFailures, events)
    ensures After(s, events).state == Closed <==> FailuresInARow(s.consecutiveFailures, events) < FAILURE_THRESHOLD
    decreases |events|
  {
    if events != [] { ClosedUntilFiveInARow(Next(s, events[0]), events[1..]); }
  }

  function Asks(times: seq<Time>): seq<Event> {
    if times == [] then [] else [Asked(times[0])] + Asks(times[1..])
  }

  lemma {:induction false} RefusedUntil(stamped: Snapshot, since: Time, times: seq<Time>)
    requires stamped.state != Closed && stamped.openedAt == Some(since)
    requires forall k :: 0 <= k < |times| ==> times[k] < since + COOLDOWN_MS
    ensures After(stamped, Asks(times)) == stamped
    decreases |times|
  {
    if times != [] {
      assert Asks(times)[1..] == Asks(times[1..]);
      RefusedUntil(stamped, since, times[1..]);
    }
  }

  /**
   * After a breaker that is not closed has admitted a request it admits another only a whole
   * cooldown later, however often it is asked in between: one probe, not a thousand.
   */
  lemma {:induction false} ProbesAreSpaced(s: Snapshot, first: Time, times: seq<Time>, second: Time)
    requires Consistent(s) && s.state != Closed && Admit(s, first).allow
    requires forall k :: 0 <= k < |times| ==> times[k] < first + COOLDOWN_MS
    ensures Admit(After(Admit(s, first).next, Asks(times)), second).allow <==> second >= first + COOLDOWN_MS
  {
    RefusedUntil(Admit(s, first).next, first, times);
  }
}
