/**
 * What one drain and one replay come to: which clicks they take and in what order, where each goes,
 * and what is written and counted.
 */
module ClickQueueOutcomes {
  import opened Prelude
  import opened Bisect
  import opened ClickQueue
  import ClickQueueRuns

  // ----- counting

  /** The places in a table that hold a counted click of the link. */
  function PlacesOf(link: Link, payloads: seq<Payload>): set<nat> {
    set k: nat | k < |payloads| && payloads[k].isCounted && payloads[k].link == link
  }

  /** A counter moves by one for each of them. */
  lemma {:induction false} ClicksAreCounted(link: Link, payloads: seq<Payload>)
    ensures ClicksOn(link, payloads) == |PlacesOf(link, payloads)|
  {
    if payloads == [] {
      assert PlacesOf(link, payloads) == {};
    } else {
      var last: nat := |payloads| - 1;
      ClicksAreCounted(link, payloads[..last]);
      var front := PlacesOf(link, payloads[..last]);
      if payloads[last].isCounted && payloads[last].link == link {
        assert PlacesOf(link, payloads) == front + {last};
      } else {
        assert PlacesOf(link, payloads) == front;
      }
    }
  }

  // ----- the oldest come first

  /** The last `n` strings of a list, in the order they were pushed. */
  function Oldest(raws: seq<Raw>, n: nat): seq<Raw>
    requires n <= |raws|
  {
    seq(n, k requires 0 <= k < n => raws[|raws| - 1 - k])
  }

  function IsClick(valid: bool): Raw -> bool {
    (raw: Raw) => !raw.Malformed? && Unwrapped(raw).payload.isValid == valid
  }

  /** The clicks among some strings that the schema accepts, or that it refuses. */
  function Clicks(raws: seq<Raw>, valid: bool): seq<Held> {
    if raws == [] then []
    else (if IsClick(valid)(raws[0]) then [Unwrapped(raws[0])] else []) + Clicks(raws[1..], valid)
  }

  function Refusals(rejected: seq<Held>): seq<Failure<Held, string>> {
    seq(|rejected|, k requires 0 <= k < |rejected| => Failure(rejected[k], BAD_SCHEMA))
  }

  /** Nothing stops the taking after `n` strings but the limit, the end of the list or an empty string. */
  predicate StopsAfter(raws: seq<Raw>, n: nat, limit: nat) {
    && n <= |raws| && n <= limit
    && (n == limit || n == |raws| || (n > 0 && raws[|raws| - n] == Malformed("")))
    && (n > 0 ==> Malformed("") !in raws[|raws| - n + 1..])
  }

  lemma OneTakenMore(raws: seq<Raw>, m: nat, limit: nat)
    requires raws != [] && raws[|raws| - 1] != Malformed("") && limit > 0
    requires StopsAfter(raws[..|raws| - 1], m, limit - 1)
    ensures StopsAfter(raws, m + 1, limit)
    ensures raws[..|raws| - 1][..|raws| - 1 - m] == raws[..|raws| - 1 - m]
    ensures Oldest(raws, m + 1) == [raws[|raws| - 1]] + Oldest(raws[..|raws| - 1], m)
  {
    var front := raws[..|raws| - 1];
    if m > 0 { assert raws[|raws| - m..] == front[|front| - m + 1..] + [raws[|raws| - 1]]; }
  }

  lemma OneString(raw: Raw, rest: seq<Raw>, valid: bool)
    ensures Clicks([raw] + rest, valid) == (if IsClick(valid)(raw) then [Unwrapped(raw)] else []) + Clicks(rest, valid)
  {
    assert ([raw] + rest)[1..] == rest;
  }

  /** What has been collected once the oldest `n` strings have been taken. */
  predicate Took(lists: Lists, n: nat, batch: seq<Held>, dead: nat, clock: nat -> Time, c: Collection)
    requires n <= |lists.queue|
  {
    var taken := Oldest(lists.queue, n);
    && c.batch == batch + Clicks(taken, true) && c.dead == dead + |Clicks(taken, false)|
    && c.lists ==
       AllBuried(lists.(queue := lists.queue[..|lists.queue| - n]), Refusals(Clicks(taken, false)), dead, clock)
  }

  function Popped(lists: Lists): Lists
    requires lists.queue != []
  {
    lists.(queue := lists.queue[..|lists.queue| - 1])
  }

  lemma OneLessLeft(lists: Lists, m: nat)
    requires lists.queue != [] && m < |lists.queue|
    ensures var queue := Popped(lists).queue;
            Popped(lists).(queue := queue[..|queue| - m]) == lists.(queue := lists.queue[..|lists.queue| - (m + 1)])
  {
    var queue := Popped(lists).queue;
    assert queue[..|queue| - m] == lists.queue[..|lists.queue| - (m + 1)];
  }

  lemma TookJunk(lists: Lists, m: nat, batch: seq<Held>, dead: nat, clock: nat -> Time, c: Collection)
    requires lists.queue != [] && m < |lists.queue| && lists.queue[|lists.queue| - 1].Malformed?
    requires Took(Popped(lists), m, batch, dead, clock, c)
    ensures Took(lists, m + 1, batch, dead, clock, c)
  {
    var raw, rest := lists.queue[|lists.queue| - 1], Oldest(Popped(lists).queue, m);
    assert Oldest(lists.queue, m + 1) == [raw] + rest;
    OneString(raw, rest, true);
    OneString(raw, rest, false);
    assert [] + Clicks(rest, true) == Clicks(rest, true) && [] + Clicks(rest, false) == Clicks(rest, false);
    OneLessLeft(lists, m);
  }

  lemma TookValid(lists: Lists, m: nat, held: Held, batch: seq<Held>, dead: nat, clock: nat -> Time, c: Collection)
    requires lists.queue != [] && m < |lists.queue| && IsClick(true)(lists.queue[|lists.queue| - 1])
    requires held == Unwrapped(lists.queue[|lists.queue| - 1])
    requires Took(Popped(lists), m, batch + [held], dead, clock, c)
    ensures Took(lists, m + 1, batch, dead, clock, c)
  {
    var raw, rest := lists.queue[|lists.queue| - 1], Oldest(Popped(lists).queue, m);
    assert Oldest(lists.queue, m + 1) == [raw] + rest;
    OneString(raw, rest, true);
    OneString(raw, rest, false);
    Associates(batch, [held], Clicks(rest, true));
    assert [] + Clicks(rest, false) == Clicks(rest, false);
    OneLessLeft(lists, m);
  }

  lemma BuriedFirst(lists: Lists, held: Held, rest: seq<Held>, dead: nat, clock: nat -> Time)
    ensures AllBuried(lists, Refusals([held] + rest), dead, clock) ==
            AllBuried(Buried(lists, held, BAD_SCHEMA, clock(dead)), Refusals(rest), dead + 1, clock)
  {
    assert Refusals([held] + rest) == [Failure(held, BAD_SCHEMA)] + Refusals(rest);
    assert Refusals([held] + rest)[1..] == Refusals(rest);
  }

  lemma BuriedThenLeft(lists: Lists, m: nat, held: Held, rest: seq<Held>, dead: nat, clock: nat -> Time)
    requires lists.queue != [] && m < |lists.queue|
    ensures var buried := Buried(Popped(lists), held, BAD_SCHEMA, clock(dead));
            && |buried.queue| == |lists.queue| - 1
            && AllBuried(buried.(queue := buried.queue[..|buried.queue| - m]), Refusals(rest), dead + 1, clock) ==
               AllBuried(lists.(queue := lists.queue[..|lists.queue| - (m + 1)]), Refusals([held] + rest), dead, clock)
  {
    var buried, left := Buried(Popped(lists), held, BAD_SCHEMA, clock(dead)), lists.queue[..|lists.queue| - (m + 1)];
    assert buried.queue[..|buried.queue| - m] == left;
    assert buried.(queue := left) == Buried(lists.(queue := left), held, BAD_SCHEMA, clock(dead));
    BuriedFirst(lists.(queue := left), held, rest, dead, clock);
  }

  lemma TookInvalid(lists: Lists, m: nat, held: Held, batch: seq<Held>, dead: nat, clock: nat -> Time, c: Collection)
    requires lists.queue != [] && m < |lists.queue| && IsClick(false)(lists.queue[|lists.queue| - 1])
    requires held == Unwrapped(lists.queue[|lists.queue| - 1])
    requires Took(Buried(Popped(lists), held, BAD_SCHEMA, clock(dead)), m, batch, dead + 1, clock, c)
    ensures Took(lists, m + 1, batch, dead, clock, c)
  {
    var raw, rest := lists.queue[|lists.queue| - 1], Oldest(Popped(lists).queue, m);
    assert Oldest(lists.queue, m + 1) == [raw] + rest;
    OneString(raw, rest, true);
    OneString(raw, rest, false);
    assert [] + Clicks(rest, true) == Clicks(rest, true);
    BuriedThenLeft(lists, m, held, Clicks(rest, false), dead, clock);
  }

  lemma TookNone(lists: Lists, batch: seq<Held>, dead: nat, clock: nat -> Time)
    ensures Took(lists, 0, batch, dead, clock, Collection(lists, batch, dead))
  {
    assert lists.queue[..|lists.queue|] == lists.queue && batch + [] == batch;
  }

  /** `n` strings have been taken and that was all there was to take. */
  ghost predicate Collects(lists: Lists, i: nat, batch: seq<Held>, dead: nat, clock: nat -> Time, n: nat)
    requires i <= BATCH_MAX
  {
    && StopsAfter(lists.queue, n, BATCH_MAX - i)
    && Took(lists, n, batch, dead, clock, Collected(lists, i, batch, dead, clock))
  }

  lemma CollectsNone(lists: Lists, i: nat, batch: seq<Held>, dead: nat, clock: nat -> Time)
    requires i <= BATCH_MAX && (i == BATCH_MAX || lists.queue == [])
    ensures Collects(lists, i, batch, dead, clock, 0)
  {
    TookNone(lists, batch, dead, clock);
  }

  lemma CollectsEmpty(lists: Lists, i: nat, batch: seq<Held>, dead: nat, clock: nat -> Time)
    requires i < BATCH_MAX && lists.queue != [] && lists.queue[|lists.queue| - 1] == Malformed("")
    ensures Collects(lists, i, batch, dead, clock, 1)
  {
    TookNone(Popped(lists), batch, dead, clock);
    TookJunk(lists, 0, batch, dead, clock, Collection(Popped(lists), batch, dead));
  }

  lemma {:induction false} CollectsJunk(lists: Lists, i: nat, batch: seq<Held>, dead: nat, clock: nat -> Time)
    returns (n: nat)
    requires i < BATCH_MAX && lists.queue != []
    requires lists.queue[|lists.queue| - 1].Malformed? && lists.queue[|lists.queue| - 1] != Malformed("")
    ensures Collects(lists, i, batch, dead, clock, n)
    decreases BATCH_MAX - i, 0
  {
    var m := CollectsTheOldest(Popped(lists), i + 1, batch, dead, clock);
    TookJunk(lists, m, batch, dead, clock, Collected(Popped(lists), i + 1, batch, dead, clock));
    OneTakenMore(lists.queue, m, BATCH_MAX - i);
    n := m + 1;
  }

  lemma {:induction false} CollectsValid(lists: Lists, i: nat, batch: seq<Held>, dead: nat, clock: nat -> Time)
    returns (n: nat)
    requires i < BATCH_MAX && lists.queue != [] && IsClick(true)(lists.queue[|lists.queue| - 1])
    ensures Collects(lists, i, batch, dead, clock, n)
    decreases BATCH_MAX - i, 0
  {
    var held := Unwrapped(lists.queue[|lists.queue| - 1]);
    var m := CollectsTheOldest(Popped(lists), i + 1, batch + [held], dead, clock);
    TookValid(lists, m, held, batch, dead, clock, Collected(Popped(lists), i + 1, batch + [held], dead, clock));
    OneTakenMore(lists.queue, m, BATCH_MAX - i);
    n := m + 1;
  }

  lemma {:induction false} CollectsInvalid(lists: Lists, i: nat, batch: seq<Held>, dead: nat, clock: nat -> Time)
    returns (n: nat)
    requires i < BATCH_MAX && lists.queue != [] && IsClick(false)(lists.queue[|lists.queue| - 1])
    ensures Collects(lists, i, batch, dead, clock, n)
    decreases BATCH_MAX - i, 0
  {
    var held := Unwrapped(lists.queue[|lists.queue| - 1]);
    var buried := Buried(Popped(lists), held, BAD_SCHEMA, clock(dead));
    var m := CollectsTheOldest(buried, i + 1, batch, dead + 1, clock);
    TookInvalid(lists, m, held, batch, dead, clock, Collected(buried, i + 1, batch, dead + 1, clock));
    OneTakenMore(lists.queue, m, BATCH_MAX - i);
    n := m + 1;
  }

  /** Collecting takes the oldest strings of the queue. */
  lemma {:induction false} CollectsTheOldest(lists: Lists, i: nat, batch: seq<Held>, dead: nat, clock: nat -> Time)
    returns (n: nat)
    requires i <= BATCH_MAX
    ensures Collects(lists, i, batch, dead, clock, n)
    decreases BATCH_MAX - i, 1
  {
    if i == BATCH_MAX || lists.queue == [] {
      CollectsNone(lists, i, batch, dead, clock);
      n := 0;
    } else {
      var raw := lists.queue[|lists.queue| - 1];
      if raw == Malformed("") {
        CollectsEmpty(lists, i, batch, dead, clock);
        n := 1;
      } else if raw.Malformed? {
        n := CollectsJunk(lists, i, batch, dead, clock);
      } else if Unwrapped(raw).payload.isValid {
        n := CollectsValid(lists, i, batch, dead, clock);
      } else {
        n := CollectsInvalid(lists, i, batch, dead, clock);
      }
    }
  }

  // ----- the table holds clicks that the schema accepts

  predicate AllValid(batch: seq<Held>) {
    forall k :: 0 <= k < |batch| ==> batch[k].payload.isValid
  }

  predicate HoldsValid(worker: ClickQueueRuns.Worker) {
    match worker
    case Idle => true
    case Collecting(_, batch) => AllValid(batch)
    case Rejecting(_, batch, held) => AllValid(batch) && !held.payload.isValid
    case Flushing(todo, _) => forall k :: 0 <= k < |todo| ==> AllValid(todo[k])
  }

  predicate OnlyValid(world: ClickQueueRuns.World) {
    && (forall k :: 0 <= k < |world.store.table| ==> world.store.table[k].isValid)
    && (forall w :: 0 <= w < |world.workers| ==> HoldsValid(world.workers[w]))
  }

  lemma StepKeepsValid(world: ClickQueueRuns.World, step: ClickQueueRuns.Step)
    requires OnlyValid(world)
    ensures OnlyValid(ClickQueueRuns.Next(world, step))
  {
    match step
    case Write(w, refused) =>
      if w < |world.workers| && world.workers[w].Flushing? && world.workers[w].todo != [] {
        assert HoldsValid(world.workers[w]) && AllValid(world.workers[w].todo[0]);
      }
    case Pop(w) =>
      if w < |world.workers| { assert HoldsValid(world.workers[w]); }
    case Reject(w, _) =>
      if w < |world.workers| { assert HoldsValid(world.workers[w]); }
    case _ =>
  }

  /** Whatever interleaves: a click that the schema refuses is never written. */
  lemma {:induction false} OnlyValidAreTabled(world: ClickQueueRuns.World, steps: seq<ClickQueueRuns.Step>)
    requires OnlyValid(world)
    ensures OnlyValid(ClickQueueRuns.Run(world, steps))
    decreases |steps|
  {
    if steps != [] {
      StepKeepsValid(world, steps[0]);
      OnlyValidAreTabled(ClickQueueRuns.Next(world, steps[0]), steps[1..]);
    }
  }

  // ----- a dead letter

  /** One more failure is an envelope that keeps the click and its first failure; the third one parks it. */
  lemma BuriedOutcome(lists: Lists, held: Held, reason: string, now: Time)
    ensures var lists', envelope := Buried(lists, held, reason, now), Enveloped(held, reason, now);
            && lists'.queue == lists.queue && envelope.reason == reason && envelope.lastFailedAt == now
            && (match held.prior
                case None => envelope.payload == held.payload && envelope.attempts == 1 && envelope.firstFailedAt == now
                case Some(before) =>
                  && envelope.payload == before.payload && envelope.attempts == before.attempts + 1
                  && envelope.firstFailedAt == before.firstFailedAt)
            && (if envelope.attempts >= 3 then
                  lists'.parked == [DeadLetter(envelope)] + lists.parked && lists'.dlq == lists.dlq
                else lists'.dlq == [DeadLetter(envelope)] + lists.dlq && lists'.parked == lists.parked)
  {
  }

  lemma {:induction false} AllAreBuried(lists: Lists, failed: seq<Failure<Held, string>>, dead: nat, clock: nat -> Time)
    ensures var lists' := AllBuried(lists, failed, dead, clock);
            && lists'.queue == lists.queue
            && |lists'.dlq| + |lists'.parked| == |lists.dlq| + |lists.parked| + |failed|
    decreases |failed|
  {
    if failed != [] {
      AllAreBuried(Buried(lists, failed[0].item, failed[0].error, clock(dead)), failed[1..], dead + 1, clock);
    }
  }

  // ----- one transaction

  /** Every counted click of the slice has a link with a counter. */
  predicate AllLinked(clicks: map<Link, int>, payloads: seq<Payload>) {
    forall k :: 0 <= k < |payloads| && payloads[k].isCounted ==> payloads[k].link in clicks
  }

  /** A slice is written whole unless the database refuses it, or a counted click has no counter. */
  lemma TransactionOutcome(refused: Option<string>, store: Store, slice: seq<Held>)
    ensures var result := Transaction(refused, store, slice);
            match refused
            case Some(error) => result == Err(error)
            case None =>
              if !AllLinked(store.clicks, Payloads(slice)) then result == Err(NO_SUCH_LINK)
              else
                && result.Ok? && result.value.table == store.table + Payloads(slice)
                && result.value.clicks.Keys == store.clicks.Keys
                && forall l :: l in store.clicks ==>
                     result.value.clicks[l] == store.clicks[l] + |PlacesOf(l, Payloads(slice))|
  {
    forall k | 0 <= k < |slice| ensures slice[k] in slice && Payloads(slice)[k] == slice[k].payload {
    }
    forall l ensures ClicksOn(l, Payloads(slice)) == |PlacesOf(l, Payloads(slice))| {
      ClicksAreCounted(l, Payloads(slice));
    }
    if AllLinked(store.clicks, Payloads(slice)) {
      forall h | h in slice && h.payload.isCounted ensures h.payload.link in store.clicks {
        var k :| 0 <= k < |slice| && slice[k] == h;
        assert Payloads(slice)[k] == h.payload;
      }
    }
  }

  /** A counted click that the schema accepts has a link with a counter. */
  predicate IsLinked(clicks: map<Link, int>, raw: Raw) {
    IsClick(true)(raw) && Unwrapped(raw).payload.isCounted ==> Unwrapped(raw).payload.link in clicks
  }

  lemma {:induction false} ClicksAreLinked(clicks: map<Link, int>, raws: seq<Raw>)
    requires forall k :: 0 <= k < |raws| ==> IsLinked(clicks, raws[k])
    ensures AllLinked(clicks, Payloads(Clicks(raws, true)))
  {
    if raws != [] {
      assert IsLinked(clicks, raws[0]);
      ClicksAreLinked(clicks, raws[1..]);
      var rest := Clicks(raws[1..], true);
      if IsClick(true)(raws[0]) {
        assert Payloads([Unwrapped(raws[0])] + rest) == [Unwrapped(raws[0]).payload] + Payloads(rest);
      } else {
        assert [] + rest == rest;
      }
    }
  }

  /** With a database that refuses nothing and a counter for every link queued, only invalid clicks are buried. */
  lemma CalmDrainWritesAll(verdict: Verdict, lists: Lists, store: Store, clock: nat -> Time) returns (n: nat)
    requires forall s, slice :: verdict(s, slice) == None
    requires forall k :: 0 <= k < |lists.queue| ==> IsLinked(store.clicks, lists.queue[k])
    ensures StopsAfter(lists.queue, n, 100)
    ensures WrittenOut(Drained(verdict, lists, store, clock), lists, store, n, Clicks(Oldest(lists.queue, n), true))
  {
    var written;
    n, written := DrainOutcome(verdict, lists, store, clock);
    var batch := Clicks(Oldest(lists.queue, n), true);
    ClicksAreLinked(store.clicks, Oldest(lists.queue, n));
    TransactionOutcome(None, store, batch);
    assert Flush(verdict)(store, batch) == Transaction(verdict(store, batch), store, batch);
  }

  // ----- a whole drain

  lemma PayloadsConcat(a: seq<Held>, b: seq<Held>)
    ensures Payloads(a + b) == Payloads(a) + Payloads(b)
  {
  }

  /** Slices that commit one after another write their clicks in order and move each counter by them. */
  lemma {:induction false} SlicesAreWritten(verdict: Verdict, first: Store, slices: seq<seq<Held>>, last: Store)
    requires Commits(Flush(verdict), first, slices, last)
    ensures last.table == first.table + Payloads(Concat(slices))
    ensures last.clicks.Keys == first.clicks.Keys
    ensures forall l :: l in first.clicks ==> last.clicks[l] == first.clicks[l] + ClicksOn(l, Payloads(Concat(slices)))
    decreases |slices|
  {
    if slices == [] {
      assert first.table + [] == first.table;
    } else {
      var next := Flush(verdict)(first, slices[0]).value;
      assert Flush(verdict)(first, slices[0]) == Transaction(verdict(first, slices[0]), first, slices[0]);
      assert next == Written(first, slices[0]);
      SlicesAreWritten(verdict, next, slices[1..], last);
      PayloadsConcat(slices[0], Concat(slices[1..]));
      Associates(first.table, Payloads(slices[0]), Payloads(Concat(slices[1..])));
      forall l ensures ClicksOn(l, Payloads(Concat(slices))) ==
                       ClicksOn(l, Payloads(slices[0])) + ClicksOn(l, Payloads(Concat(slices[1..])))
      {
        ClicksOnConcat(l, Payloads(slices[0]), Payloads(Concat(slices[1..])));
      }
    }
  }

  lemma BatchIsWritten(verdict: Verdict, store: Store, batch: seq<Held>)
    ensures var o := Bisected(Flush(verdict), store, batch);
            && o.state.table == store.table + Payloads(o.succeeded) && o.state.clicks.Keys == store.clicks.Keys
            && (forall l :: l in store.clicks ==>
                  o.state.clicks[l] == store.clicks[l] + ClicksOn(l, Payloads(o.succeeded)))
            && |o.succeeded| + |o.failed| == |batch|
  {
    if batch == [] {
      assert store.table + [] == store.table;
    } else {
      var slices := WrittenInSlices(Flush(verdict), store, batch);
      var o := Bisected(Flush(verdict), store, batch);
      SlicesAreWritten(verdict, store, slices, o.state);
      var marks := Partition(Flush(verdict), store, batch);
      MarksAddUp(batch, marks);
      assert |Items(o.failed)| == |o.failed|;
    }
  }

  /** What has been collected from scratch: the rest of the queue is untouched. */
  lemma TookFromTheQueue(lists: Lists, n: nat, clock: nat -> Time, c: Collection)
    requires n <= |lists.queue| && Took(lists, n, [], 0, clock, c)
    ensures var taken := Oldest(lists.queue, n);
            && c.batch == Clicks(taken, true) && c.dead == |Clicks(taken, false)|
            && c.lists.queue == lists.queue[..|lists.queue| - n]
            && |c.lists.dlq| + |c.lists.parked| == |lists.dlq| + |lists.parked| + c.dead
  {
    var taken := Oldest(lists.queue, n);
    assert [] + Clicks(taken, true) == Clicks(taken, true);
    AllAreBuried(lists.(queue := lists.queue[..|lists.queue| - n]), Refusals(Clicks(taken, false)), 0, clock);
  }

  /**
   * A drain takes the oldest strings, at most a hundred. Its valid clicks are written in the order they
   * came, each link's counter moving by their number, but for those that fail; those and the invalid
   * ones are dead letters. What it reports is how many it wrote and how many it buried.
   */
  lemma DrainOutcome(verdict: Verdict, lists: Lists, store: Store, clock: nat -> Time)
    returns (n: nat, written: seq<Held>)
    ensures StopsAfter(lists.queue, n, 100)
    ensures written == Bisected(Flush(verdict), store, Clicks(Oldest(lists.queue, n), true)).succeeded
    ensures WrittenOut(Drained(verdict, lists, store, clock), lists, store, n, written)
  {
    n := CollectsTheOldest(lists, 0, [], 0, clock);
    var c := Collected(lists, 0, [], 0, clock);
    TookFromTheQueue(lists, n, clock, c);
    var o := Bisected(Flush(verdict), store, c.batch);
    written := o.succeeded;
    AllAreBuried(c.lists, o.failed, c.dead, clock);
    BatchIsWritten(verdict, store, c.batch);
    forall l | l in store.clicks
      ensures o.state.clicks[l] == store.clicks[l] + |PlacesOf(l, Payloads(written))|
    {
      ClicksAreCounted(l, Payloads(written));
    }
  }

  ghost predicate WrittenOut(drain: Drain, lists: Lists, store: Store, n: nat, written: seq<Held>)
    requires n <= |lists.queue|
  {
    var taken := Oldest(lists.queue, n);
    && drain.lists.queue == lists.queue[..|lists.queue| - n]
    && drain.store.table == store.table + Payloads(written)
    && drain.store.clicks.Keys == store.clicks.Keys
    && (forall l :: l in store.clicks ==>
          drain.store.clicks[l] == store.clicks[l] + |PlacesOf(l, Payloads(written))|)
    && drain.flushed == |written|
    && drain.deadLettered == |Clicks(taken, false)| + |Clicks(taken, true)| - |written|
    && |drain.lists.dlq| + |drain.lists.parked| == |lists.dlq| + |lists.parked| + drain.deadLettered
  }

  lemma {:induction false} MarksAddUp<T>(items: seq<T>, marks: seq<bool>)
    requires |items| == |marks|
    ensures |Marked(items, marks, true)| + |Marked(items, marks, false)| == |items|
  {
    if items != [] { MarksAddUp(items[1..], marks[1..]); }
  }

  // ----- a replay

  predicate IsExhausted(raw: Raw) {
    raw.DeadLetter? && raw.envelope.attempts >= 3
  }

  /** Those of some strings that are exhausted, or are not, the last pushed first. */
  function Pushed(raws: seq<Raw>, exhausted: bool): seq<Raw> {
    if raws == [] then []
    else Pushed(raws[1..], exhausted) + (if IsExhausted(raws[0]) == exhausted then [raws[0]] else [])
  }

  /** The dead letters taken, without an empty string that ends the taking. */
  function Taken(raws: seq<Raw>, n: nat): seq<Raw>
    requires n <= |raws|
  {
    Oldest(raws, if n > 0 && raws[|raws| - n] == Malformed("") then n - 1 else n)
  }

  /** Where the lists are once `n` dead letters have been taken. */
  predicate Returned(lists: Lists, n: nat, lists': Lists)
    requires n <= |lists.dlq|
  {
    && lists'.dlq == lists.dlq[..|lists.dlq| - n]
    && lists'.queue == Pushed(Taken(lists.dlq, n), false) + lists.queue
    && lists'.parked == Pushed(Taken(lists.dlq, n), true) + lists.parked
  }

  lemma ReturnedNone(lists: Lists)
    ensures Returned(lists, 0, lists)
  {
    assert lists.dlq[..|lists.dlq|] == lists.dlq;
    assert [] + lists.queue == lists.queue && [] + lists.parked == lists.parked;
  }

  lemma ReturnedEmpty(lists: Lists)
    requires lists.dlq != [] && lists.dlq[|lists.dlq| - 1] == Malformed("")
    ensures Returned(lists, 1, lists.(dlq := lists.dlq[..|lists.dlq| - 1]))
  {
    assert [] + lists.queue == lists.queue && [] + lists.parked == lists.parked;
  }

  /**
   * A replay takes the oldest dead letters, at most `limit`, until there are no more or an empty string
   * comes; it parks those that have failed three times and queues the others again, oldest first.
   */
  lemma {:induction false} ReplayOutcome(lists: Lists, limit: nat) returns (n: nat)
    ensures StopsAfter(lists.dlq, n, limit)
    ensures Returned(lists, n, AllReplayed(lists, limit))
    decreases limit
  {
    if limit == 0 || lists.dlq == [] {
      ReturnedNone(lists);
      return 0;
    }
    var raw, popped := lists.dlq[|lists.dlq| - 1], lists.(dlq := lists.dlq[..|lists.dlq| - 1]);
    if raw == Malformed("") {
      n := 1;
      ReturnedEmpty(lists);
    } else {
      var m := ReplayOutcome(Replayed(popped, raw), limit - 1);
      n := m + 1;
      OneTakenMore(lists.dlq, m, limit);
      OneReturnedMore(lists, raw, m, AllReplayed(lists, limit));
    }
  }

  lemma OneReturnedMore(lists: Lists, raw: Raw, m: nat, lists': Lists)
    requires m < |lists.dlq| && raw == lists.dlq[|lists.dlq| - 1] != Malformed("")
    requires Returned(Replayed(lists.(dlq := lists.dlq[..|lists.dlq| - 1]), raw), m, lists')
    ensures Returned(lists, m + 1, lists')
  {
    var front := lists.dlq[..|lists.dlq| - 1];
    assert front[..|front| - m] == lists.dlq[..|lists.dlq| - (m + 1)];
    assert m > 0 ==> front[|front| - m] == lists.dlq[|lists.dlq| - (m + 1)];
    assert Taken(lists.dlq, m + 1) == [raw] + Taken(front, m);
    OnePushed(raw, Taken(front, m), lists.queue, false);
    OnePushed(raw, Taken(front, m), lists.parked, true);
    assert [] + lists.queue == lists.queue && [] + lists.parked == lists.parked;
  }

  lemma OnePushed(raw: Raw, rest: seq<Raw>, onto: seq<Raw>, exhausted: bool)
    ensures Pushed([raw] + rest, exhausted) + onto ==
            Pushed(rest, exhausted) + ((if IsExhausted(raw) == exhausted then [raw] else []) + onto)
  {
    assert ([raw] + rest)[1..] == rest;
    Associates(Pushed(rest, exhausted), if IsExhausted(raw) == exhausted then [raw] else [], onto);
  }
}
