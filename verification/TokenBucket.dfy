/**
 * The token bucket: the pure rule of packages/analytics/src/token-bucket.ts and the Redis script of
 * apps/api/src/lib/rate-limiter.ts that is its shared, expiring form.
 *
 * A level is counted in 60000ths of a token, so a rate per minute is a whole number of them per
 * millisecond and everything is exact.
 */
module TokenBucket {
  import opened Prelude

  type Time = int

  const UNIT := 60000

  /** `capacity` in tokens; `perMinute` tokens are added per minute. */
  datatype Spec = Spec(capacity: nat, perMinute: nat)

  datatype State = State(level: int, at: Time)

  datatype Decision = Decision(allowed: bool, state: State, remaining: int, retryAfterMs: int, resetMs: int)

  /** The least whole number not below `n / d`. */
  function CeilDiv(n: int, d: int): (k: int)
    requires d > 0
    ensures n <= k * d < n + d
  {
    -((-n) / d)
  }

  const BILLION := 1000000000

  /** `Math.ceil(n / d - 1e-9)` */
  function CeilMs(n: int, d: int): int
    requires d > 0
  {
    CeilDiv(n * BILLION - d, d * BILLION)
  }

  function Full(spec: Spec): int {
    spec.capacity * UNIT
  }

  function FullBucket(spec: Spec, now: Time): State {
    State(Full(spec), now)
  }

  function Refill(s: State, spec: Spec, now: Time): State {
    if now <= s.at then s else State(Min(Full(spec), s.level + (now - s.at) * spec.perMinute), now)
  }

  function Consume(s: State, spec: Spec, now: Time, cost: nat): Decision
    requires spec.perMinute > 0
  {
    var refilled := Refill(s, spec, now);
    var allowed := refilled.level >= cost * UNIT;
    var after := if allowed then State(refilled.level - cost * UNIT, refilled.at) else refilled;
    Decision(allowed, after, after.level / UNIT,
             if allowed then 0 else CeilMs(cost * UNIT - after.level, spec.perMinute),
             CeilMs(Full(spec) - after.level, spec.perMinute))
  }

  // ----- the ceiling

  lemma CeilIs(n: int, d: int, k: int)
    requires d > 0 && n <= k * d && (k - 1) * d < n
    ensures CeilDiv(n, d) == k
  {
    var c := CeilDiv(n, d);
    if c < k { Monotone(c, k - 1, d); }
    if c > k { Monotone(k, c - 1, d); }
  }

  lemma Monotone(a: int, b: int, d: int)
    requires a <= b && d > 0
    ensures a * d <= b * d
  {
  }

  lemma CeilMsIsCeil(n: int, d: int)
    requires 0 < d < BILLION
    ensures CeilMs(n, d) == CeilDiv(n, d)
  {
    var k := CeilDiv(n, d);
    assert k * (d * BILLION) == k * d * BILLION;
    assert (k - 1) * (d * BILLION) == (k - 1) * d * BILLION;
    assert (k - 1) * d == k * d - d;
    CeilIs(n * BILLION - d, d * BILLION, k);
  }

  /** The billionth taken off before rounding up never matters exactly for rates below a billion a minute. */
  lemma EpsilonIsHarmless(d: int)
    requires d > 0
    ensures (forall n: int :: CeilMs(n, d) == CeilDiv(n, d)) <==> d < BILLION
  {
    if d < BILLION {
      forall n: int ensures CeilMs(n, d) == CeilDiv(n, d) {
        CeilMsIsCeil(n, d);
      }
    } else {
      CeilIs(1, d, 1);
      CeilIs(1 * BILLION - d, d * BILLION, 0);
      assert CeilMs(1, d) != CeilDiv(1, d);
    }
  }

  // ----- how much is let through

  predicate InRange(s: State, spec: Spec) {
    0 <= s.level <= Full(spec)
  }

  /** A call: what the clock reads, forwards or not, and what it costs. */
  datatype Call = Call(now: Time, cost: nat)

  /** The tokens that a run of calls is given, and the bucket after it. */
  function Spent(s: State, spec: Spec, calls: seq<Call>): nat
    requires spec.perMinute > 0
    decreases |calls|
  {
    if calls == [] then 0
    else
      var d := Consume(s, spec, calls[0].now, calls[0].cost);
      (if d.allowed then calls[0].cost else 0) + Spent(d.state, spec, calls[1..])
  }

  function After(s: State, spec: Spec, calls: seq<Call>): State
    requires spec.perMinute > 0
    decreases |calls|
  {
    if calls == [] then s else After(Consume(s, spec, calls[0].now, calls[0].cost).state, spec, calls[1..])
  }

  /** The latest reading so far. */
  function RunningMax(at: Time, calls: seq<Call>): Time
    decreases |calls|
  {
    if calls == [] then at else RunningMax(Max(at, calls[0].now), calls[1..])
  }

  lemma OneCall(s: State, spec: Spec, call: Call)
    requires spec.perMinute > 0 && InRange(s, spec)
    ensures var d := Consume(s, spec, call.now, call.cost);
            && InRange(d.state, spec) && d.state.at == Max(s.at, call.now)
            && d.state.level + UNIT * (if d.allowed then call.cost else 0) <=
               s.level + (d.state.at - s.at) * spec.perMinute
  {
    if call.now > s.at { Monotone(0, call.now - s.at, spec.perMinute); }
  }

  /** What is spent comes out of what was there and what flowed in while the latest reading advanced. */
  lemma {:induction false} SpentIsCovered(s: State, spec: Spec, calls: seq<Call>)
    requires spec.perMinute > 0 && InRange(s, spec)
    ensures InRange(After(s, spec, calls), spec)
    ensures After(s, spec, calls).at == RunningMax(s.at, calls) >= s.at
    ensures After(s, spec, calls).level + UNIT * Spent(s, spec, calls) <=
            s.level + (RunningMax(s.at, calls) - s.at) * spec.perMinute
    decreases |calls|
  {
    if calls != [] {
      var next := Consume(s, spec, calls[0].now, calls[0].cost).state;
      OneCall(s, spec, calls[0]);
      SpentIsCovered(next, spec, calls[1..]);
      var end := RunningMax(s.at, calls);
      assert (end - next.at) * spec.perMinute + (next.at - s.at) * spec.perMinute == (end - s.at) * spec.perMinute;
    }
  }

  /**
   * For any readings of the clock, backwards ones too: in any stretch of calls at most the burst and
   * what the rate gives over the advance of the latest reading is let through.
   */
  lemma AdmissionsAreBounded(s: State, spec: Spec, before: seq<Call>, calls: seq<Call>)
    requires spec.perMinute > 0 && InRange(s, spec)
    ensures var start := After(s, spec, before);
            UNIT * Spent(start, spec, calls) <=
            UNIT * spec.capacity + (RunningMax(start.at, calls) - start.at) * spec.perMinute
  {
    SpentIsCovered(s, spec, before);
    SpentIsCovered(After(s, spec, before), spec, calls);
  }

  /** Calls of one token each, all at the same reading. */
  function AtOnce(now: Time, n: nat): seq<Call> {
    if n == 0 then [] else [Call(now, 1)] + AtOnce(now, n - 1)
  }

  /** `remaining` is exactly what can still be spent at once: of any number of calls that many get through. */
  lemma {:induction false} RemainingIsSpendable(s: State, spec: Spec, n: nat)
    requires spec.perMinute > 0 && InRange(s, spec)
    ensures Spent(s, spec, AtOnce(s.at, n)) == Min(n, s.level / UNIT)
    decreases n
  {
    if n > 0 {
      var d := Consume(s, spec, s.at, 1);
      assert AtOnce(s.at, n)[1..] == AtOnce(s.at, n - 1);
      RemainingIsSpendable(d.state, spec, n - 1);
    }
  }

  // ----- when to come back

  /** How far the caller's clock is behind the bucket's. */
  function Lag(s: State, now: Time): nat {
    if now < s.at then s.at - now else 0
  }

  lemma EnoughAfter(level: int, spec: Spec, cost: nat, waited: nat)
    requires 0 < spec.perMinute < BILLION && level < cost * UNIT
    ensures level + waited * spec.perMinute >= cost * UNIT <==> waited >= CeilMs(cost * UNIT - level, spec.perMinute)
  {
    var need := cost * UNIT - level;
    CeilMsIsCeil(need, spec.perMinute);
    var k := CeilDiv(need, spec.perMinute);
    if waited >= k { Monotone(k, waited, spec.perMinute); }
    if waited < k {
      Monotone(waited, k - 1, spec.perMinute);
      assert (k - 1) * spec.perMinute == k * spec.perMinute - spec.perMinute;
    }
  }

  /**
   * After a refusal with nothing else in between, a call `wait` milliseconds later is let through if
   * and only if `wait` is at least the retry-after and whatever the caller's clock was behind.
   */
  lemma RetryAfterIsExact(s: State, spec: Spec, now: Time, cost: nat, wait: nat)
    requires 0 < spec.perMinute < BILLION && InRange(s, spec) && cost <= spec.capacity
    ensures var d := Consume(s, spec, now, cost);
            !d.allowed ==> (Consume(d.state, spec, now + wait, cost).allowed <==> wait >= d.retryAfterMs + Lag(s, now))
  {
    var d := Consume(s, spec, now, cost);
    if !d.allowed {
      OneCall(s, spec, Call(now, cost));
      EnoughAfter(d.state.level, spec, cost, 0);
      if now + wait > d.state.at {
        EnoughAfter(d.state.level, spec, cost, now + wait - d.state.at);
      }
    }
  }

  /**
   * Waiting just the retry-after suffices exactly when the caller's clock was not behind; a
   * millisecond less never does.
   */
  lemma RetryAfterSuffices(s: State, spec: Spec, now: Time, cost: nat)
    requires 0 < spec.perMinute < BILLION && InRange(s, spec) && cost <= spec.capacity
    ensures var d := Consume(s, spec, now, cost);
            !d.allowed ==>
              && d.retryAfterMs > 0
              && (Consume(d.state, spec, now + d.retryAfterMs, cost).allowed <==> now >= s.at)
              && !Consume(d.state, spec, now + d.retryAfterMs - 1, cost).allowed
  {
    var d := Consume(s, spec, now, cost);
    if !d.allowed {
      OneCall(s, spec, Call(now, cost));
      EnoughAfter(d.state.level, spec, cost, 0);
      RetryAfterIsExact(s, spec, now, cost, d.retryAfterMs);
      RetryAfterIsExact(s, spec, now, cost, d.retryAfterMs - 1);
    }
  }

  /**
   * A call is let through exactly when what has flowed in by then covers it; it takes that much, and
   * need not come back.
   */
  lemma AdmissionOutcome(s: State, spec: Spec, now: Time, cost: nat)
    requires spec.perMinute > 0 && InRange(s, spec)
    ensures var d := Consume(s, spec, now, cost);
            var level := if now <= s.at then s.level else Min(Full(spec), s.level + (now - s.at) * spec.perMinute);
            && (d.allowed <==> level >= 60000 * cost) && d.state.at == Max(s.at, now)
            && d.state.level == level - (if d.allowed then 60000 * cost else 0)
            && 60000 * d.remaining <= d.state.level < 60000 * (d.remaining + 1)
            && (d.allowed ==> d.retryAfterMs == 0)
  {
    OneCall(s, spec, Call(now, cost));
  }

  /** A call that costs more than the capacity never gets through. */
  lemma TooDearForever(s: State, spec: Spec, now: Time, cost: nat)
    requires spec.perMinute > 0 && InRange(s, spec) && cost > spec.capacity
    ensures !Consume(s, spec, now, cost).allowed
  {
    OneCall(s, spec, Call(now, cost));
  }

  /** `resetMs` is the least wait after which the bucket is full again. */
  lemma ResetIsExact(s: State, spec: Spec, now: Time, cost: nat, wait: nat)
    requires 0 < spec.perMinute < BILLION && InRange(s, spec)
    ensures var d := Consume(s, spec, now, cost);
            Refill(d.state, spec, d.state.at + wait).level == Full(spec) <==> wait >= d.resetMs
  {
    var d := Consume(s, spec, now, cost);
    OneCall(s, spec, Call(now, cost));
    if d.state.level < Full(spec) {
      EnoughAfter(d.state.level, spec, spec.capacity, wait);
    } else {
      CeilMsIsCeil(0, spec.perMinute);
      CeilIs(0, spec.perMinute, 0);
      Monotone(0, wait, spec.perMinute);
    }
  }

  // ----- the shared bucket in Redis

  /** The hash and its expiry. */
  datatype Stored = Stored(tokens: int, ts: Time, expiry: Time)

  datatype Reply = Reply(allowed: bool, remaining: int, retryAfterMs: int, resetMs: int)

  function TtlMs(spec: Spec): int
    requires spec.perMinute > 0
  {
    CeilDiv(Full(spec), spec.perMinute) + 60000
  }

  /** What the script reads: an expired hash is not there. */
  function Shown(stored: Option<Stored>, now: Time): Option<Stored> {
    if stored.Some? && now < stored.value.expiry then stored else None
  }

  /** The key of one bucket. */
  class BucketKey {
    var stored: Option<Stored>

    constructor ()
      ensures stored == None
    {
      stored := None;
    }

    /** CONSUME_SCRIPT, with Redis and the caller on one clock. */
    method ConsumeScript(spec: Spec, now: Time, cost: nat) returns (reply: Reply)
      requires spec.perMinute > 0
      modifies this
      ensures reply == Scripted(old(stored), spec, now, cost).0
      ensures stored == Some(Scripted(old(stored), spec, now, cost).1)
    {
      var tokens, ts := Full(spec), now;
      if stored.Some? && now < stored.value.expiry {
        tokens, ts := stored.value.tokens, stored.value.ts;
      }
      if now > ts {
        tokens := Min(Full(spec), tokens + (now - ts) * spec.perMinute);
        ts := now;
      }
      var allowed := false;
      if tokens >= cost * UNIT {
        allowed := true;
        tokens := tokens - cost * UNIT;
      }
      stored := Some(Stored(tokens, ts, now + TtlMs(spec)));
      var retryAfterMs := 0;
      if !allowed { retryAfterMs := CeilMs(cost * UNIT - tokens, spec.perMinute); }
      return Reply(allowed, tokens / UNIT, retryAfterMs, CeilMs(Full(spec) - tokens, spec.perMinute));
    }
  }

  /** The bucket the script works on: what is shown, or a full one. */
  function Loaded(stored: Option<Stored>, spec: Spec, now: Time): State {
    match Shown(stored, now)
    case None => FullBucket(spec, now)
    case Some(h) => State(h.tokens, h.ts)
  }

  function Scripted(stored: Option<Stored>, spec: Spec, now: Time, cost: nat): (Reply, Stored)
    requires spec.perMinute > 0
  {
    var d := Consume(Loaded(stored, spec, now), spec, now, cost);
    (Reply(d.allowed, d.remaining, d.retryAfterMs, d.resetMs), Stored(d.state.level, d.state.at, now + TtlMs(spec)))
  }

  /** Every reply of a run against the expiring key. */
  function ScriptReplies(stored: Option<Stored>, spec: Spec, calls: seq<Call>): seq<Reply>
    requires spec.perMinute > 0
    decreases |calls|
  {
    if calls == [] then []
    else
      [Scripted(stored, spec, calls[0].now, calls[0].cost).0] +
      ScriptReplies(Some(Scripted(stored, spec, calls[0].now, calls[0].cost).1), spec, calls[1..])
  }

  /** Every reply of the pure bucket, which never expires. */
  function PureReplies(s: State, spec: Spec, calls: seq<Call>): seq<Reply>
    requires spec.perMinute > 0
    decreases |calls|
  {
    if calls == [] then []
    else
      var d := Consume(s, spec, calls[0].now, calls[0].cost);
      [Reply(d.allowed, d.remaining, d.retryAfterMs, d.resetMs)] + PureReplies(d.state, spec, calls[1..])
  }

  predicate Forwards(from: Time, calls: seq<Call>)
    decreases |calls|
  {
    calls != [] ==> from <= calls[0].now && Forwards(calls[0].now, calls[1..])
  }

  /** An idle bucket is full by the time its key expires. */
  lemma FullByExpiry(s: State, spec: Spec, now: Time)
    requires spec.perMinute > 0 && InRange(s, spec) && now >= s.at + TtlMs(spec)
    ensures Refill(s, spec, now) == FullBucket(spec, now)
  {
    var k := CeilDiv(Full(spec), spec.perMinute);
    Monotone(k, now - s.at, spec.perMinute);
    if k < 0 { Monotone(k, -1, spec.perMinute); }
  }

  /** A key is kept for a minute longer than an empty bucket takes to fill. */
  lemma TtlIsAMinuteOver(spec: Spec, at: Time, wait: nat)
    requires spec.perMinute > 0
    ensures Refill(State(0, at), spec, at + wait).level == Full(spec) <==> wait >= TtlMs(spec) - 60000
  {
    var k := CeilDiv(Full(spec), spec.perMinute);
    if wait >= k { Monotone(k, wait, spec.perMinute); }
    if wait < k {
      Monotone(wait, k - 1, spec.perMinute);
      assert (k - 1) * spec.perMinute == k * spec.perMinute - spec.perMinute;
    }
  }

  lemma {:induction false} ExpiryFrom(s: State, spec: Spec, calls: seq<Call>)
    requires spec.perMinute > 0 && InRange(s, spec) && Forwards(s.at, calls)
    ensures ScriptReplies(Some(Stored(s.level, s.at, s.at + TtlMs(spec))), spec, calls) == PureReplies(s, spec, calls)
    decreases |calls|
  {
    if calls != [] {
      var stored, now := Some(Stored(s.level, s.at, s.at + TtlMs(spec))), calls[0].now;
      if now >= s.at + TtlMs(spec) { FullByExpiry(s, spec, now); }
      assert Refill(Loaded(stored, spec, now), spec, now) == Refill(s, spec, now);
      var d := Consume(s, spec, now, calls[0].cost);
      OneCall(s, spec, calls[0]);
      assert Scripted(stored, spec, now, calls[0].cost).1 ==
             Stored(d.state.level, d.state.at, d.state.at + TtlMs(spec));
      ExpiryFrom(d.state, spec, calls[1..]);
    }
  }

  /** On one clock that does not run backwards, letting the key expire never changes a reply. */
  lemma ExpiryIsInvisible(spec: Spec, calls: seq<Call>)
    requires spec.perMinute > 0 && calls != [] && Forwards(calls[0].now, calls)
    ensures ScriptReplies(None, spec, calls) == PureReplies(FullBucket(spec, calls[0].now), spec, calls)
  {
    var now := calls[0].now;
    var full := FullBucket(spec, now);
    var d := Consume(full, spec, now, calls[0].cost);
    OneCall(full, spec, calls[0]);
    ExpiryFrom(d.state, spec, calls[1..]);
  }

  // ----- what the client is told

  datatype RateLimitDecision =
    RateLimitDecision(allowed: bool, limit: nat, remaining: int, retryAfterSeconds: int, resetSeconds: int)

  function ToDecision(reply: Reply, spec: Spec): RateLimitDecision {
    RateLimitDecision(reply.allowed, spec.capacity, reply.remaining,
                      if reply.allowed then 0 else Max(1, CeilDiv(reply.retryAfterMs, 1000)),
                      CeilDiv(reply.resetMs, 1000))
  }

  /** What the client is told is the reply in whole seconds, rounded up. */
  lemma ToldInSeconds(reply: Reply, spec: Spec)
    ensures var told := ToDecision(reply, spec);
            && told.allowed == reply.allowed && told.limit == spec.capacity && told.remaining == reply.remaining
            && (told.resetSeconds - 1) * 1000 < reply.resetMs <= told.resetSeconds * 1000
            && (reply.allowed ==> told.retryAfterSeconds == 0)
            && (!reply.allowed ==> told.retryAfterSeconds >= 1 && reply.retryAfterMs <= told.retryAfterSeconds * 1000)
            && (!reply.allowed && told.retryAfterSeconds > 1 ==>
                  (told.retryAfterSeconds - 1) * 1000 < reply.retryAfterMs)
  {
  }

  /** A refused client that waits the seconds it is told gets through, and is never told to come back at once. */
  lemma SecondsSuffice(s: State, spec: Spec, now: Time, cost: nat)
    requires 0 < spec.perMinute < BILLION && InRange(s, spec) && cost <= spec.capacity && now >= s.at
    ensures var d := Consume(s, spec, now, cost);
            var told := ToDecision(Reply(d.allowed, d.remaining, d.retryAfterMs, d.resetMs), spec).retryAfterSeconds;
            !d.allowed ==> told >= 1 && Consume(d.state, spec, now + told * 1000, cost).allowed
  {
    var d := Consume(s, spec, now, cost);
    if !d.allowed {
      var told := ToDecision(Reply(d.allowed, d.remaining, d.retryAfterMs, d.resetMs), spec).retryAfterSeconds;
      RetryAfterIsExact(s, spec, now, cost, told * 1000);
    }
  }
}
