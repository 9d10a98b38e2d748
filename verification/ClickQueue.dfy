/**
 * The click queue: apps/api/src/workers/click-event.worker.ts.
 *
 * Three Redis lists are written at the front and popped from the back. A click is drained into the
 * table and its link's counter; one that cannot be written goes to the dead letters in an envelope
 * that counts its failures, and after the third to the parked list.
 */
module ClickQueue {
  import opened Prelude
  import opened Bisect

  type Link = string
  type Time = int

  const BATCH_MAX := 100
  const MAX_ATTEMPTS := 3

  /**
   * A click as it was queued. `isValid` is the schema's verdict on it and `isCounted` what `toRow`
   * makes of its traffic; `id` tells apart clicks that are otherwise the same.
   */
  datatype Payload = Payload(id: nat, link: Link, isValid: bool, isCounted: bool)

  datatype Envelope = Envelope(payload: Payload, reason: string, attempts: nat, firstFailedAt: Time, lastFailedAt: Time)

  /** A string in a list: not JSON at all, a click as the redirect service queued it, or an envelope. */
  datatype Raw = Malformed(text: string) | Bare(click: Payload) | DeadLetter(envelope: Envelope)

  datatype Lists = Lists(queue: seq<Raw>, dlq: seq<Raw>, parked: seq<Raw>)

  datatype Store = Store(table: seq<Payload>, clicks: map<Link, int>)

  /** A parsed click and the failures it already has. */
  datatype Held = Held(payload: Payload, prior: Option<Envelope>)

  function AsEnvelope(raw: Raw): Option<Envelope> {
    if raw.DeadLetter? then Some(raw.envelope) else None
  }

  function Unwrapped(raw: Raw): Held
    requires !raw.Malformed?
  {
    match raw
    case Bare(click) => Held(click, None)
    case DeadLetter(envelope) => Held(envelope.payload, Some(envelope))
  }

  function Enveloped(held: Held, reason: string, now: Time): Envelope {
    match held.prior
    case None => Envelope(held.payload, reason, 1, now, now)
    case Some(previous) => Envelope(previous.payload, reason, previous.attempts + 1, previous.firstFailedAt, now)
  }

  /** One more failure: to the dead letters, or parked if there were enough. */
  function Buried(lists: Lists, held: Held, reason: string, now: Time): Lists {
    var envelope := Enveloped(held, reason, now);
    if envelope.attempts >= MAX_ATTEMPTS then lists.(parked := [DeadLetter(envelope)] + lists.parked)
    else lists.(dlq := [DeadLetter(envelope)] + lists.dlq)
  }

  // ----- one slice is written

  predicate CountsFor(link: Link, payload: Payload) {
    payload.isCounted && payload.link == link
  }

  /** How many clicks of a slice move the counter of a link. */
  function ClicksOn(link: Link, payloads: seq<Payload>): nat {
    if payloads == [] then 0
    else ClicksOn(link, payloads[..|payloads| - 1]) + if CountsFor(link, payloads[|payloads| - 1]) then 1 else 0
  }

  lemma {:induction false} ClicksOnConcat(link: Link, a: seq<Payload>, b: seq<Payload>)
    ensures ClicksOn(link, a + b) == ClicksOn(link, a) + ClicksOn(link, b)
  {
    if b == [] {
      assert a + b == a;
    } else {
      ClicksOnConcat(link, a, b[..|b| - 1]);
      assert (a + b)[..|a + b| - 1] == a + b[..|b| - 1];
    }
  }

  function Payloads(slice: seq<Held>): seq<Payload> {
    seq(|slice|, i requires 0 <= i < |slice| => slice[i].payload)
  }

  /** Every link that a counter must be moved for is there. */
  predicate LinksExist(store: Store, slice: seq<Held>) {
    forall h :: h in slice && h.payload.isCounted ==> h.payload.link in store.clicks
  }

  function Written(store: Store, slice: seq<Held>): Store {
    Store(store.table + Payloads(slice),
          map l | l in store.clicks :: store.clicks[l] + ClicksOn(l, Payloads(slice)))
  }

  /** Why the database refuses a slice, if it does. */
  type Verdict = (Store, seq<Held>) -> Option<string>

  const NO_SUCH_LINK := "no such link"

  /** The transaction of `flushBatch`, which the database may refuse for a reason of its own. */
  function Transaction(refused: Option<string>, store: Store, slice: seq<Held>): Result<Store, string> {
    match refused
    case Some(error) => Err(error)
    case None => if LinksExist(store, slice) then Ok(Written(store, slice)) else Err(NO_SUCH_LINK)
  }

  function Flush(verdict: Verdict): Commit<Store, Held, string> {
    (store: Store, slice: seq<Held>) => Transaction(verdict(store, slice), store, slice)
  }

  lemma {:induction false} CountedSomewhere(link: Link, payloads: seq<Payload>)
    ensures ClicksOn(link, payloads) > 0 <==> exists k :: 0 <= k < |payloads| && CountsFor(link, payloads[k])
  {
    if payloads != [] {
      var last := |payloads| - 1;
      CountedSomewhere(link, payloads[..last]);
      if CountsFor(link, payloads[last]) {
      } else if k :| 0 <= k < |payloads| && CountsFor(link, payloads[k]) {
        assert CountsFor(link, payloads[..last][k]);
      }
    }
  }

  lemma LinksExistCounted(store: Store, slice: seq<Held>)
    ensures LinksExist(store, slice) <==> forall l :: ClicksOn(l, Payloads(slice)) > 0 ==> l in store.clicks
  {
    var rows := Payloads(slice);
    if LinksExist(store, slice) {
      forall l | ClicksOn(l, rows) > 0
        ensures l in store.clicks
      {
        CountedSomewhere(l, rows);
        var k :| 0 <= k < |rows| && CountsFor(l, rows[k]);
        assert slice[k] in slice;
      }
    }
    if forall l :: ClicksOn(l, rows) > 0 ==> l in store.clicks {
      forall h | h in slice && h.payload.isCounted
        ensures h.payload.link in store.clicks
      {
        var k :| 0 <= k < |slice| && slice[k] == h;
        assert CountsFor(h.payload.link, rows[k]);
        CountedSomewhere(h.payload.link, rows);
      }
    }
  }

  /** The counts of a slice, per link, as `flushBatch` gathers them. */
  method CountLinks(rows: seq<Payload>) returns (linkCounts: map<Link, nat>)
    ensures forall l :: l in linkCounts <==> ClicksOn(l, rows) > 0
    ensures forall l :: l in linkCounts ==> linkCounts[l] == ClicksOn(l, rows)
  {
    linkCounts := map[];
    for i := 0 to |rows|
      invariant forall l :: l in linkCounts <==> ClicksOn(l, rows[..i]) > 0
      invariant forall l :: l in linkCounts ==> linkCounts[l] == ClicksOn(l, rows[..i])
    {
      assert rows[..i + 1][..i] == rows[..i];
      if rows[i].isCounted {
        var soFar := if rows[i].link in linkCounts then linkCounts[rows[i].link] else 0;
        linkCounts := linkCounts[rows[i].link := soFar + 1];
      }
    }
    assert rows[..|rows|] == rows;
  }

  /** `flushBatch`: the rows go in and each link of the slice is moved once, or nothing happens. */
  method FlushBatch(verdict: Verdict, store: Store, slice: seq<Held>) returns (result: Result<Store, string>)
    ensures result == Flush(verdict)(store, slice)
  {
    var rows := Payloads(slice);
    var linkCounts := CountLinks(rows);
    var refused := verdict(store, slice);
    if refused.Some? { return Err(refused.value); }
    LinksExistCounted(store, slice);
    var clicks := store.clicks;
    var counters := linkCounts.Keys;
    while counters != {}
      invariant counters <= linkCounts.Keys
      invariant clicks.Keys == store.clicks.Keys
      invariant forall l :: l in linkCounts && l !in counters ==> l in clicks
      invariant forall l :: l in clicks ==>
                  clicks[l] == store.clicks[l] + if l in counters then 0 else ClicksOn(l, rows)
      decreases counters
    {
      var l :| l in counters;
      counters := counters - {l};
      if l !in clicks { return Err(NO_SUCH_LINK); }
      clicks := clicks[l := clicks[l] + linkCounts[l]];
    }
    assert clicks == Written(store, slice).clicks;
    return Ok(Store(store.table + rows, clicks));
  }

  // ----- one drain

  const BAD_SCHEMA := "schema: invalid"

  datatype Collection = Collection(lists: Lists, batch: seq<Held>, dead: nat)

  /**
   * The rest of the collecting loop, `i` pops into it. `clock(k)` is what the clock reads for the
   * k-th dead letter of the drain.
   */
  function Collected(lists: Lists, i: nat, batch: seq<Held>, dead: nat, clock: nat -> Time): Collection
    decreases BATCH_MAX - i
  {
    if i >= BATCH_MAX || lists.queue == [] then Collection(lists, batch, dead)
    else
      var raw := lists.queue[|lists.queue| - 1];
      var popped := lists.(queue := lists.queue[..|lists.queue| - 1]);
      if raw == Malformed("") then Collection(popped, batch, dead)
      else if raw.Malformed? then Collected(popped, i + 1, batch, dead, clock)
      else
        var held := Unwrapped(raw);
        if !held.payload.isValid then
          Collected(Buried(popped, held, BAD_SCHEMA, clock(dead)), i + 1, batch, dead + 1, clock)
        else Collected(popped, i + 1, batch + [held], dead, clock)
  }

  function AllBuried(lists: Lists, failed: seq<Failure<Held, string>>, dead: nat, clock: nat -> Time): Lists
    decreases |failed|
  {
    if failed == [] then lists
    else AllBuried(Buried(lists, failed[0].item, failed[0].error, clock(dead)), failed[1..], dead + 1, clock)
  }

  datatype Drain = Drain(lists: Lists, store: Store, flushed: nat, deadLettered: nat)

  function Drained(verdict: Verdict, lists: Lists, store: Store, clock: nat -> Time): Drain {
    var c := Collected(lists, 0, [], 0, clock);
    var o := Bisected(Flush(verdict), store, c.batch);
    Drain(AllBuried(c.lists, o.failed, c.dead, clock), o.state, |o.succeeded|, c.dead + |o.failed|)
  }

  // ----- replay

  /** Where one dead letter goes. */
  function Replayed(lists: Lists, raw: Raw): Lists {
    if raw.DeadLetter? && raw.envelope.attempts >= MAX_ATTEMPTS then lists.(parked := [raw] + lists.parked)
    else lists.(queue := [raw] + lists.queue)
  }

  function AllReplayed(lists: Lists, limit: nat): Lists
    decreases limit
  {
    if limit == 0 || lists.dlq == [] then lists
    else
      var raw, popped := lists.dlq[|lists.dlq| - 1], lists.(dlq := lists.dlq[..|lists.dlq| - 1]);
      if raw == Malformed("") then popped else AllReplayed(Replayed(popped, raw), limit - 1)
  }

  // ----- Redis and the database as the worker sees them

  class ClickEvents {
    var queue: seq<Raw>
    var dlq: seq<Raw>
    var parked: seq<Raw>
    var table: seq<Payload>
    var clicks: map<Link, int>

    ghost function InRedis(): Lists
      reads this
    {
      Lists(queue, dlq, parked)
    }

    ghost function InDatabase(): Store
      reads this
    {
      Store(table, clicks)
    }

    method Bury(held: Held, reason: string, now: Time)
      modifies `dlq, `parked
      ensures InRedis() == Buried(old(InRedis()), held, reason, now)
    {
      var attempts, firstFailedAt, payload := 0, now, held.payload;
      if held.prior.Some? {
        attempts := held.prior.value.attempts;
        firstFailedAt := held.prior.value.firstFailedAt;
        payload := held.prior.value.payload;
      }
      var envelope := Envelope(payload, reason, attempts + 1, firstFailedAt, now);
      if envelope.attempts >= MAX_ATTEMPTS {
        parked := [DeadLetter(envelope)] + parked;
      } else {
        dlq := [DeadLetter(envelope)] + dlq;
      }
    }

    /** The collecting loop: at most BATCH_MAX pops. */
    method Collect(clock: nat -> Time) returns (events: seq<Held>, deadLettered: nat)
      modifies `queue, `dlq, `parked
      ensures Collected(old(InRedis()), 0, [], 0, clock) == Collection(InRedis(), events, deadLettered)
    {
      events, deadLettered := [], 0;
      for i := 0 to BATCH_MAX
        invariant Collected(InRedis(), i, events, deadLettered, clock) == Collected(old(InRedis()), 0, [], 0, clock)
      {
        if queue == [] { return; }
        var raw := queue[|queue| - 1];
        queue := queue[..|queue| - 1];
        if raw == Malformed("") { return; }
        if raw.Malformed? { continue; }
        var held := Unwrapped(raw);
        if held.payload.isValid {
          events := events + [held];
        } else {
          Bury(held, BAD_SCHEMA, clock(deadLettered));
          deadLettered := deadLettered + 1;
        }
      }
    }

    method BuryAll(failed: seq<Failure<Held, string>>, dead: nat, clock: nat -> Time)
      modifies `dlq, `parked
      ensures InRedis() == AllBuried(old(InRedis()), failed, dead, clock)
    {
      for k := 0 to |failed|
        invariant AllBuried(InRedis(), failed[k..], dead + k, clock) == AllBuried(old(InRedis()), failed, dead, clock)
      {
        assert failed[k..][1..] == failed[k + 1..];
        Bury(failed[k].item, failed[k].error, clock(dead + k));
      }
    }

    method DrainClickEvents(verdict: Verdict, clock: nat -> Time) returns (flushed: nat, deadLettered: nat)
      modifies this
      ensures Drained(verdict, old(InRedis()), old(InDatabase()), clock) ==
              Drain(InRedis(), InDatabase(), flushed, deadLettered)
    {
      var events;
      events, deadLettered := Collect(clock);
      var outcome := BisectCommit(Flush(verdict), Store(table, clicks), events);
      table, clicks := outcome.state.table, outcome.state.clicks;
      BuryAll(outcome.failed, deadLettered, clock);
      return |outcome.succeeded|, deadLettered + |outcome.failed|;
    }

    method ReplayDeadLetters(limit: nat) returns (replayed: nat, parkedNow: nat)
      modifies `queue, `dlq, `parked
      ensures InRedis() == AllReplayed(old(InRedis()), limit)
      ensures |queue| == |old(queue)| + replayed && |parked| == |old(parked)| + parkedNow
    {
      replayed, parkedNow := 0, 0;
      for i := 0 to limit
        invariant AllReplayed(InRedis(), limit - i) == AllReplayed(old(InRedis()), limit)
        invariant |queue| == |old(queue)| + replayed && |parked| == |old(parked)| + parkedNow
      {
        if dlq == [] { return; }
        var raw := dlq[|dlq| - 1];
        dlq := dlq[..|dlq| - 1];
        if raw == Malformed("") { return; }
        var envelope := AsEnvelope(raw);
        if envelope.Some? && envelope.value.attempts >= MAX_ATTEMPTS {
          parked := [raw] + parked;
          parkedNow := parkedNow + 1;
        } else {
          queue := [raw] + queue;
          replayed := replayed + 1;
        }
      }
    }
  }
}
