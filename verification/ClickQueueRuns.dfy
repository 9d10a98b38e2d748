/**
 * Any number of click workers and replays at once. Each pop, push and transaction is a step of its
 * own, and steps of different workers interleave freely.
 */
module ClickQueueRuns {
  import opened Prelude
  import opened Bisect
  import opened ClickQueue

  // ----- workers between their steps

  datatype Worker =
    | Idle
    | Collecting(pops: nat, batch: seq<Held>)
    | Rejecting(pops: nat, batch: seq<Held>, held: Held)
    | Flushing(todo: seq<seq<Held>>, failed: seq<Failure<Held, string>>)

  datatype Failed = Failed(id: nat, at: Time)

  /** `arrived` and `failures` are history: every click ever queued, and every drain that failed one. */
  datatype World =
    World(lists: Lists, store: Store, workers: seq<Worker>, replayers: seq<Option<Raw>>,
          arrived: seq<Payload>, failures: seq<Failed>)

  datatype Step =
    | Click(link: Link, isValid: bool, isCounted: bool)
    | Junk(text: string)
    | Start(worker: nat)
    | Pop(worker: nat)
    | Reject(worker: nat, now: Time)
    | Write(worker: nat, refused: Option<string>)
    | BuryOne(worker: nat, now: Time)
    | Take(replayer: nat)
    | Return(replayer: nat)

  function WithWorker(world: World, w: nat, worker: Worker): World
    requires w < |world.workers|
  {
    world.(workers := world.workers[w := worker])
  }

  /** A batch that is complete: it is tried whole first. */
  function Complete(batch: seq<Held>): Worker {
    Flushing(if batch == [] then [] else [batch], [])
  }

  /** The worker once it has popped `raw`. */
  function Caught(pops: nat, batch: seq<Held>, raw: Raw): Worker {
    if raw == Malformed("") then Complete(batch)
    else if raw.Malformed? then Collecting(pops + 1, batch)
    else if Unwrapped(raw).payload.isValid then Collecting(pops + 1, batch + [Unwrapped(raw)])
    else Rejecting(pops + 1, batch, Unwrapped(raw))
  }

  predicate PopEnds(world: World, w: nat)
    requires w < |world.workers| && world.workers[w].Collecting?
  {
    world.workers[w].pops >= BATCH_MAX || world.lists.queue == []
  }

  /** A pop ends the collecting, or takes what is at the end of the queue. */
  function Popped(world: World, w: nat): World
    requires w < |world.workers| && world.workers[w].Collecting?
  {
    var pops, batch, queue := world.workers[w].pops, world.workers[w].batch, world.lists.queue;
    if PopEnds(world, w) then WithWorker(world, w, Complete(batch))
    else
      WithWorker(world.(lists := world.lists.(queue := queue[..|queue| - 1])), w,
                 Caught(pops, batch, queue[|queue| - 1]))
  }

  function BuriedIn(world: World, held: Held, reason: string, now: Time): World {
    world.(lists := Buried(world.lists, held, reason, now),
           failures := world.failures + [Failed(held.payload.id, now)])
  }

  /** A refused slice is one failure, or is split in the middle. */
  function Refused(todo: seq<seq<Held>>, failed: seq<Failure<Held, string>>, error: string): Worker
    requires todo != [] && todo[0] != []
  {
    var slice := todo[0];
    if |slice| == 1 then Flushing(todo[1..], failed + [Failure(slice[0], error)])
    else Flushing([slice[..|slice| / 2], slice[|slice| / 2..]] + todo[1..], failed)
  }

  /** One transaction of the bisection, which the database refuses for a reason or lets through. */
  function Tried(world: World, w: nat, refused: Option<string>): World
    requires w < |world.workers| && world.workers[w].Flushing? && world.workers[w].todo != []
    requires world.workers[w].todo[0] != []
  {
    var todo, failed := world.workers[w].todo, world.workers[w].failed;
    match Transaction(refused, world.store, todo[0])
    case Ok(store) => WithWorker(world.(store := store), w, Flushing(todo[1..], failed))
    case Err(error) => WithWorker(world, w, Refused(todo, failed, error))
  }

  /** One step. One that cannot be taken changes nothing. */
  function Next(world: World, step: Step): World {
    match step
    case Click(link, isValid, isCounted) =>
      var click := Payload(|world.arrived|, link, isValid, isCounted);
      world.(lists := world.lists.(queue := [Bare(click)] + world.lists.queue), arrived := world.arrived + [click])
    case Junk(text) =>
      world.(lists := world.lists.(queue := [Malformed(text)] + world.lists.queue))
    case Start(w) =>
      if w < |world.workers| && world.workers[w].Idle? then WithWorker(world, w, Collecting(0, [])) else world
    case Pop(w) =>
      if w < |world.workers| && world.workers[w].Collecting? then Popped(world, w) else world
    case Reject(w, now) =>
      if w < |world.workers| && world.workers[w].Rejecting? then
        var Rejecting(pops, batch, held) := world.workers[w];
        WithWorker(BuriedIn(world, held, BAD_SCHEMA, now), w, Collecting(pops, batch))
      else world
    case Write(w, refused) =>
      if w < |world.workers| && world.workers[w].Flushing? && world.workers[w].todo != [] &&
         world.workers[w].todo[0] != []
      then Tried(world, w, refused) else world
    case BuryOne(w, now) =>
      if w < |world.workers| && world.workers[w].Flushing? && world.workers[w].todo == [] then
        var failed := world.workers[w].failed;
        if failed == [] then WithWorker(world, w, Idle)
        else WithWorker(BuriedIn(world, failed[0].item, failed[0].error, now), w, Flushing([], failed[1..]))
      else world
    case Take(r) =>
      if r < |world.replayers| && world.replayers[r] == None && world.lists.dlq != [] then
        var dlq := world.lists.dlq;
        world.(lists := world.lists.(dlq := dlq[..|dlq| - 1]),
               replayers :=
                 world.replayers[r := if dlq[|dlq| - 1] == Malformed("") then None else Some(dlq[|dlq| - 1])])
      else world
    case Return(r) =>
      if r < |world.replayers| && world.replayers[r].Some? then
        world.(lists := Replayed(world.lists, world.replayers[r].value), replayers := world.replayers[r := None])
      else world
  }

  function Run(world: World, steps: seq<Step>): World
    decreases |steps|
  {
    if steps == [] then world else Run(Next(world, steps[0]), steps[1..])
  }

  // ----- where every click is

  datatype Place = Queued | InHand | Returning | Dead | Parked | Tabled

  datatype Item = Item(payload: Payload, prior: Option<Envelope>, place: Place)

  /** How often `x` is there, 0 or 1. */
  function Is(x: Item, payload: Payload, prior: Option<Envelope>, place: Place): nat {
    if x == Item(payload, prior, place) then 1 else 0
  }

  function Here(x: Item, raw: Raw, place: Place): nat {
    if raw.Malformed? then 0 else Is(x, Unwrapped(raw).payload, Unwrapped(raw).prior, place)
  }

  function InList(x: Item, raws: seq<Raw>, place: Place): nat {
    if raws == [] then 0 else Here(x, raws[0], place) + InList(x, raws[1..], place)
  }

  function InBatch(x: Item, batch: seq<Held>): nat {
    if batch == [] then 0 else Is(x, batch[0].payload, batch[0].prior, InHand) + InBatch(x, batch[1..])
  }

  function InTable(x: Item, table: seq<Payload>): nat {
    if table == [] then 0 else Is(x, table[0], None, Tabled) + InTable(x, table[1..])
  }

  /** What a worker has popped and not yet put anywhere. */
  function HeldBy(worker: Worker): seq<Held> {
    match worker
    case Idle => []
    case Collecting(_, batch) => batch
    case Rejecting(_, batch, held) => batch + [held]
    case Flushing(todo, failed) => Concat(todo) + Items(failed)
  }

  function InWorkers(x: Item, workers: seq<Worker>): nat {
    if workers == [] then 0 else InBatch(x, HeldBy(workers[0])) + InWorkers(x, workers[1..])
  }

  function InReplayer(x: Item, hand: Option<Raw>): nat {
    if hand == None then 0 else Here(x, hand.value, Returning)
  }

  function InReplayers(x: Item, replayers: seq<Option<Raw>>): nat {
    if replayers == [] then 0 else InReplayer(x, replayers[0]) + InReplayers(x, replayers[1..])
  }

  /** How often `x` is anywhere. */
  function Anywhere(x: Item, world: World): nat {
    InList(x, world.lists.queue, Queued) + InList(x, world.lists.dlq, Dead) + InList(x, world.lists.parked, Parked) +
    InTable(x, world.store.table) + InWorkers(x, world.workers) + InReplayers(x, world.replayers)
  }

  function Census(world: World): Item -> nat {
    (x: Item) => Anywhere(x, world)
  }

  lemma {:induction false} InListConcat(x: Item, a: seq<Raw>, b: seq<Raw>, place: Place)
    ensures InList(x, a + b, place) == InList(x, a, place) + InList(x, b, place)
  {
    if a == [] {
      assert a + b == b;
    } else {
      InListConcat(x, a[1..], b, place);
      assert (a + b)[1..] == a[1..] + b;
    }
  }

  lemma {:induction false} InBatchConcat(x: Item, a: seq<Held>, b: seq<Held>)
    ensures InBatch(x, a + b) == InBatch(x, a) + InBatch(x, b)
  {
    if a == [] {
      assert a + b == b;
    } else {
      InBatchConcat(x, a[1..], b);
      assert (a + b)[1..] == a[1..] + b;
    }
  }

  lemma {:induction false} InTableConcat(x: Item, a: seq<Payload>, b: seq<Payload>)
    ensures InTable(x, a + b) == InTable(x, a) + InTable(x, b)
  {
    if a == [] {
      assert a + b == b;
    } else {
      InTableConcat(x, a[1..], b);
      assert (a + b)[1..] == a[1..] + b;
    }
  }

  lemma {:induction false} InWorkersUpdate(x: Item, workers: seq<Worker>, w: nat, worker: Worker)
    requires w < |workers|
    ensures InWorkers(x, workers[w := worker]) ==
            InWorkers(x, workers) - InBatch(x, HeldBy(workers[w])) + InBatch(x, HeldBy(worker))
  {
    if w > 0 {
      InWorkersUpdate(x, workers[1..], w - 1, worker);
      assert workers[w := worker][1..] == workers[1..][w - 1 := worker];
    } else {
      assert workers[w := worker][1..] == workers[1..];
    }
  }

  lemma {:induction false} InReplayersUpdate(x: Item, replayers: seq<Option<Raw>>, r: nat, hand: Option<Raw>)
    requires r < |replayers|
    ensures InReplayers(x, replayers[r := hand]) ==
            InReplayers(x, replayers) - InReplayer(x, replayers[r]) + InReplayer(x, hand)
  {
    if r > 0 {
      InReplayersUpdate(x, replayers[1..], r - 1, hand);
      assert replayers[r := hand][1..] == replayers[1..][r - 1 := hand];
    } else {
      assert replayers[r := hand][1..] == replayers[1..];
    }
  }

  lemma InListLast(x: Item, raws: seq<Raw>, place: Place)
    requires raws != []
    ensures InList(x, raws, place) == InList(x, raws[..|raws| - 1], place) + Here(x, raws[|raws| - 1], place)
  {
    var last := raws[|raws| - 1];
    assert raws == raws[..|raws| - 1] + [last];
    InListConcat(x, raws[..|raws| - 1], [last], place);
    assert [last][1..] == [];
  }

  lemma InListPushed(x: Item, raw: Raw, raws: seq<Raw>, place: Place)
    ensures InList(x, [raw] + raws, place) == Here(x, raw, place) + InList(x, raws, place)
  {
    assert ([raw] + raws)[1..] == raws;
  }

  lemma InBatchMore(x: Item, batch: seq<Held>, held: Held)
    ensures InBatch(x, batch + [held]) == InBatch(x, batch) + Is(x, held.payload, held.prior, InHand)
  {
    InBatchConcat(x, batch, [held]);
    assert [held][1..] == [];
  }

  // ----- the invariant, on places alone

  function FailuresOf(failures: seq<Failed>, id: nat): seq<Time> {
    if failures == [] then []
    else
      var last := |failures| - 1;
      if failures[last].id == id then FailuresOf(failures[..last], id) + [failures[last].at]
      else FailuresOf(failures[..last], id)
  }

  /** An envelope tells how often, when first and when last its click has failed. */
  predicate Tells(envelope: Envelope, payload: Payload, times: seq<Time>) {
    && envelope.payload == payload && times != []
    && envelope.attempts == |times| && envelope.firstFailedAt == times[0] && envelope.lastFailedAt == times[|times| - 1]
  }

  predicate InOrder(item: Item, times: seq<Time>) {
    && (item.prior.Some? ==> Tells(item.prior.value, item.payload, times))
    && (item.prior == None ==> item.place == Tabled || times == [])
    && (match item.place
        case Parked => |times| == MAX_ATTEMPTS
        case Dead => 1 <= |times| < MAX_ATTEMPTS
        case Returning => 1 <= |times| < MAX_ATTEMPTS
        case _ => |times| < MAX_ATTEMPTS)
  }

  ghost predicate Somewhere(n: Item -> nat, payload: Payload) {
    exists x :: n(x) > 0 && x.payload == payload
  }

  predicate Known(x: Item, arrived: seq<Payload>) {
    x.payload.id < |arrived| && arrived[x.payload.id] == x.payload
  }

  /** Every click that ever arrived is in exactly one place, with its history right. */
  ghost predicate AllInOrder(n: Item -> nat, arrived: seq<Payload>, failures: seq<Failed>) {
    && (forall x :: n(x) <= 1)
    && (forall x :: n(x) > 0 ==> Known(x, arrived) && InOrder(x, FailuresOf(failures, x.payload.id)))
    && (forall x, y :: n(x) > 0 && n(y) > 0 && x.payload.id == y.payload.id ==> x == y)
    && (forall k :: 0 <= k < |arrived| ==> arrived[k].id == k && Somewhere(n, arrived[k]))
    && (forall k :: 0 <= k < |failures| ==> failures[k].id < |arrived|)
  }

  lemma {:induction false} NoFailures(failures: seq<Failed>, id: nat)
    requires forall k :: 0 <= k < |failures| ==> failures[k].id != id
    ensures FailuresOf(failures, id) == []
  {
    if failures != [] { NoFailures(failures[..|failures| - 1], id); }
  }

  lemma OneMoreFailure(failures: seq<Failed>, id: nat, at: Time, other: nat)
    ensures FailuresOf(failures + [Failed(id, at)], other) ==
            if other == id then FailuresOf(failures, other) + [at] else FailuresOf(failures, other)
  {
    assert (failures + [Failed(id, at)])[..|failures|] == failures;
  }

  lemma ClickArrives(n: Item -> nat, n': Item -> nat, arrived: seq<Payload>, failures: seq<Failed>, click: Payload)
    requires AllInOrder(n, arrived, failures) && click.id == |arrived|
    requires forall y :: n'(y) == n(y) + Is(y, click, None, Queued)
    ensures AllInOrder(n', arrived + [click], failures)
  {
    var x, arrived' := Item(click, None, Queued), arrived + [click];
    NoFailures(failures, click.id);
    assert n(x) == 0 && n'(x) == 1;
    forall k | 0 <= k < |arrived'|
      ensures Somewhere(n', arrived'[k])
    {
      if k < |arrived| {
        assert Somewhere(n, arrived[k]);
        var y :| n(y) > 0 && y.payload == arrived[k];
        assert n'(y) > 0;
      }
    }
  }

  /** A click moves to another place, perhaps by failing once more. */
  lemma ClickMoves(n: Item -> nat, n': Item -> nat, arrived: seq<Payload>, failures: seq<Failed>,
                   failures': seq<Failed>, x: Item, x': Item, at: Time)
    requires AllInOrder(n, arrived, failures) && n(x) > 0 && x'.payload == x.payload
    requires forall y :: n'(y) == n(y) - (if y == x then 1 else 0) + (if y == x' then 1 else 0)
    requires failures' == failures || failures' == failures + [Failed(x.payload.id, at)]
    requires InOrder(x', FailuresOf(failures', x.payload.id))
    ensures AllInOrder(n', arrived, failures')
  {
    assert n(x) == 1 && (x' != x ==> n(x') == 0);
    forall y | n'(y) > 0
      ensures InOrder(y, FailuresOf(failures', y.payload.id))
    {
      OneMoreFailure(failures, x.payload.id, at, y.payload.id);
    }
    forall k | 0 <= k < |arrived|
      ensures Somewhere(n', arrived[k])
    {
      assert Somewhere(n, arrived[k]);
      var y :| n(y) > 0 && y.payload == arrived[k];
      assert n'(if y == x then x' else y) > 0;
    }
  }

  /** A slice is written: its clicks move to the table. */
  lemma {:induction false} SliceMoves(n: Item -> nat, n': Item -> nat, arrived: seq<Payload>, failures: seq<Failed>,
                                      slice: seq<Held>)
    requires AllInOrder(n, arrived, failures)
    requires forall y :: n(y) >= InBatch(y, slice)
    requires forall y :: n'(y) == n(y) - InBatch(y, slice) + InTable(y, Payloads(slice))
    ensures AllInOrder(n', arrived, failures)
    decreases |slice|
  {
    if slice == [] {
      assert forall y :: n'(y) == n(y);
      assert forall k :: 0 <= k < |arrived| ==> Somewhere(n, arrived[k]) ==> Somewhere(n', arrived[k]);
    } else {
      var x, x' := Item(slice[0].payload, slice[0].prior, InHand), Item(slice[0].payload, None, Tabled);
      assert InBatch(x, slice) > 0;
      assert n(x) == 1 && n(x') == 0;
      var mid: Item -> nat := (y: Item) => if y == x then 0 else if y == x' then 1 else n(y);
      ClickMoves(n, mid, arrived, failures, failures, x, x', 0);
      assert Payloads(slice)[1..] == Payloads(slice[1..]);
      forall y ensures mid(y) >= InBatch(y, slice[1..])
        ensures n'(y) == mid(y) - InBatch(y, slice[1..]) + InTable(y, Payloads(slice[1..]))
      {
        assert n(y) >= InBatch(y, slice);
      }
      SliceMoves(mid, n', arrived, failures, slice[1..]);
    }
  }

  lemma NothingMoves(n: Item -> nat, n': Item -> nat, arrived: seq<Payload>, failures: seq<Failed>)
    requires AllInOrder(n, arrived, failures)
    requires forall y :: n'(y) == n(y)
    ensures AllInOrder(n', arrived, failures)
  {
    SliceMoves(n, n', arrived, failures, []);
  }

  // ----- the invariant, over the world

  /** Each link's counter is its counted rows. */
  predicate Counted(store: Store) {
    forall l :: l in store.clicks ==> store.clicks[l] == ClicksOn(l, store.table)
  }

  ghost predicate Conserved(world: World) {
    AllInOrder(Census(world), world.arrived, world.failures) && Counted(world.store)
  }

  lemma WorkerChanges(y: Item, world: World, w: nat, worker: Worker)
    requires w < |world.workers|
    ensures Anywhere(y, WithWorker(world, w, worker)) ==
            Anywhere(y, world) - InBatch(y, HeldBy(world.workers[w])) + InBatch(y, HeldBy(worker))
  {
    InWorkersUpdate(y, world.workers, w, worker);
  }

  lemma {:induction false} WorkerHolds(x: Item, workers: seq<Worker>, w: nat)
    requires w < |workers|
    ensures InWorkers(x, workers) >= InBatch(x, HeldBy(workers[w]))
  {
    assert InWorkers(x, workers) == InBatch(x, HeldBy(workers[0])) + InWorkers(x, workers[1..]);
    if w > 0 {
      WorkerHolds(x, workers[1..], w - 1);
      assert workers[1..][w - 1] == workers[w];
    }
  }

  lemma {:induction false} ReplayerHolds(x: Item, replayers: seq<Option<Raw>>, r: nat)
    requires r < |replayers|
    ensures InReplayers(x, replayers) >= InReplayer(x, replayers[r])
  {
    if r > 0 { ReplayerHolds(x, replayers[1..], r - 1); }
  }

  lemma ArrivalKeeps(world: World, step: Step)
    requires Conserved(world) && (step.Click? || step.Junk?)
    ensures Conserved(Next(world, step))
  {
    var next := Next(world, step);
    forall y ensures Anywhere(y, next) == Anywhere(y, world) + Here(y, next.lists.queue[0], Queued) {
      InListPushed(y, next.lists.queue[0], world.lists.queue, Queued);
    }
    if step.Click? {
      ClickArrives(Census(world), Census(next), world.arrived, world.failures, next.lists.queue[0].click);
    } else {
      NothingMoves(Census(world), Census(next), world.arrived, world.failures);
    }
  }

  lemma CompletionHolds(y: Item, batch: seq<Held>)
    ensures InBatch(y, HeldBy(Complete(batch))) == InBatch(y, batch)
  {
    ConcatOne(batch);
    assert Items<Held, string>([]) == [];
    assert batch + [] == batch;
  }

  lemma CaughtHolds(y: Item, pops: nat, batch: seq<Held>, raw: Raw)
    ensures InBatch(y, HeldBy(Caught(pops, batch, raw))) == InBatch(y, batch) + Here(y, raw, InHand)
  {
    if raw.Malformed? { CompletionHolds(y, batch); } else { InBatchMore(y, batch, Unwrapped(raw)); }
  }

  lemma PopCensus(y: Item, world: World, w: nat)
    requires w < |world.workers| && world.workers[w].Collecting?
    ensures PopEnds(world, w) ==> Anywhere(y, Popped(world, w)) == Anywhere(y, world)
    ensures !PopEnds(world, w) ==>
              var raw := world.lists.queue[|world.lists.queue| - 1];
              && Anywhere(y, world) >= Here(y, raw, Queued)
              && Anywhere(y, Popped(world, w)) == Anywhere(y, world) - Here(y, raw, Queued) + Here(y, raw, InHand)
  {
    var pops, batch, queue := world.workers[w].pops, world.workers[w].batch, world.lists.queue;
    if PopEnds(world, w) {
      CompletionHolds(y, batch);
      WorkerChanges(y, world, w, Complete(batch));
    } else {
      InListLast(y, queue, Queued);
      CaughtHolds(y, pops, batch, queue[|queue| - 1]);
      WorkerChanges(y, world.(lists := world.lists.(queue := queue[..|queue| - 1])), w,
                    Caught(pops, batch, queue[|queue| - 1]));
    }
  }

  lemma PopKeeps(world: World, w: nat)
    requires Conserved(world) && w < |world.workers| && world.workers[w].Collecting?
    ensures Conserved(Popped(world, w))
  {
    var next := Popped(world, w);
    var n, n' := Census(world), Census(next);
    forall y
      ensures n'(y) == if PopEnds(world, w) then n(y)
                       else n(y) - Here(y, world.lists.queue[|world.lists.queue| - 1], Queued)
                                 + Here(y, world.lists.queue[|world.lists.queue| - 1], InHand)
    {
      PopCensus(y, world, w);
    }
    if PopEnds(world, w) || world.lists.queue[|world.lists.queue| - 1].Malformed? {
      NothingMoves(n, n', world.arrived, world.failures);
    } else {
      var held := Unwrapped(world.lists.queue[|world.lists.queue| - 1]);
      var x := Item(held.payload, held.prior, Queued);
      PopCensus(x, world, w);
      ClickMoves(n, n', world.arrived, world.failures, world.failures, x, x.(place := InHand), 0);
    }
    assert next.store == world.store && next.arrived == world.arrived && next.failures == world.failures;
  }

  /** A failed click goes from a worker's hands to the dead letters or the parked ones. */
  lemma BuryKeeps(world: World, w: nat, held: Held, reason: string, now: Time, worker: Worker)
    requires Conserved(world) && w < |world.workers|
    requires forall y :: InBatch(y, HeldBy(world.workers[w])) ==
                         InBatch(y, HeldBy(worker)) + Is(y, held.payload, held.prior, InHand)
    ensures Conserved(WithWorker(BuriedIn(world, held, reason, now), w, worker))
  {
    var next := WithWorker(BuriedIn(world, held, reason, now), w, worker);
    var envelope := Enveloped(held, reason, now);
    var place := if envelope.attempts >= MAX_ATTEMPTS then Parked else Dead;
    var x, x' := Item(held.payload, held.prior, InHand), Item(held.payload, Some(envelope), place);
    forall y
      ensures Anywhere(y, next) == Anywhere(y, world) - (if y == x then 1 else 0) + Here(y, DeadLetter(envelope), place)
    {
      InListPushed(y, DeadLetter(envelope), if place == Parked then world.lists.parked else world.lists.dlq, place);
      WorkerChanges(y, BuriedIn(world, held, reason, now), w, worker);
      WorkerHolds(y, world.workers, w);
    }
    WorkerHolds(x, world.workers, w);
    assert InBatch(x, HeldBy(world.workers[w])) >= 1;
    OneMoreFailure(world.failures, held.payload.id, now, held.payload.id);
    assert Census(world)(x) > 0;
    ClickMoves(Census(world), Census(next), world.arrived, world.failures, next.failures, x, x', now);
  }

  lemma RejectKeeps(world: World, w: nat, now: Time)
    requires Conserved(world) && w < |world.workers| && world.workers[w].Rejecting?
    ensures Conserved(Next(world, Reject(w, now)))
  {
    var pops, batch, held := world.workers[w].pops, world.workers[w].batch, world.workers[w].held;
    assert HeldBy(world.workers[w]) == batch + [held];
    forall y
      ensures InBatch(y, HeldBy(world.workers[w])) ==
              InBatch(y, HeldBy(Collecting(pops, batch))) + Is(y, held.payload, held.prior, InHand)
    {
      InBatchMore(y, batch, held);
    }
    BuryKeeps(world, w, held, BAD_SCHEMA, now, Collecting(pops, batch));
  }

  lemma BuryOneKeeps(world: World, w: nat, now: Time)
    requires Conserved(world) && w < |world.workers| && world.workers[w].Flushing? && world.workers[w].todo == []
    ensures Conserved(Next(world, BuryOne(w, now)))
  {
    var failed := world.workers[w].failed;
    if failed == [] {
      forall y ensures Anywhere(y, Next(world, BuryOne(w, now))) == Anywhere(y, world) {
        WorkerChanges(y, world, w, Idle);
      }
      NothingMoves(Census(world), Census(Next(world, BuryOne(w, now))), world.arrived, world.failures);
    } else {
      assert Items(failed) == [failed[0].item] + Items(failed[1..]);
      assert Concat<Held>([]) + Items(failed) == Items(failed) &&
             Concat<Held>([]) + Items(failed[1..]) == Items(failed[1..]);
      assert Items(failed)[1..] == Items(failed[1..]);
      BuryKeeps(world, w, failed[0].item, failed[0].error, now, Flushing([], failed[1..]));
    }
  }

  lemma WrittenKeepsCounters(store: Store, slice: seq<Held>)
    requires Counted(store)
    ensures Counted(Written(store, slice))
  {
    forall l | l in store.clicks
      ensures Written(store, slice).clicks[l] == ClicksOn(l, Written(store, slice).table)
    {
      ClicksOnConcat(l, store.table, Payloads(slice));
    }
  }

  lemma SplitHolds(y: Item, todo: seq<seq<Held>>, failed: seq<Failure<Held, string>>)
    requires todo != []
    ensures InBatch(y, HeldBy(Flushing(todo, failed))) ==
            InBatch(y, todo[0]) + InBatch(y, HeldBy(Flushing(todo[1..], failed)))
  {
    assert Concat(todo) + Items(failed) == todo[0] + (Concat(todo[1..]) + Items(failed));
    InBatchConcat(y, todo[0], Concat(todo[1..]) + Items(failed));
  }

  lemma FailedHolds(y: Item, todo: seq<seq<Held>>, failed: seq<Failure<Held, string>>, held: Held, error: string)
    ensures InBatch(y, HeldBy(Flushing(todo, failed + [Failure(held, error)]))) ==
            InBatch(y, HeldBy(Flushing(todo, failed))) + Is(y, held.payload, held.prior, InHand)
  {
    assert Items(failed + [Failure(held, error)]) == Items(failed) + [held];
    assert Concat(todo) + (Items(failed) + [held]) == Concat(todo) + Items(failed) + [held];
    InBatchMore(y, Concat(todo) + Items(failed), held);
  }

  lemma HalvesHold(y: Item, a: seq<Held>, b: seq<Held>, rest: seq<seq<Held>>, failed: seq<Failure<Held, string>>)
    ensures InBatch(y, HeldBy(Flushing([a, b] + rest, failed))) ==
            InBatch(y, a + b) + InBatch(y, HeldBy(Flushing(rest, failed)))
  {
    var split := [a, b] + rest;
    InBatchConcat(y, a, b);
    SplitHolds(y, split, failed);
    assert split[1..] == [b] + rest;
    SplitHolds(y, split[1..], failed);
    assert split[1..][1..] == rest;
  }

  /** What a worker holds after a refused transaction is what it held before. */
  lemma RefusedHolds(y: Item, todo: seq<seq<Held>>, failed: seq<Failure<Held, string>>, error: string)
    requires todo != [] && todo[0] != []
    ensures InBatch(y, HeldBy(Refused(todo, failed, error))) == InBatch(y, HeldBy(Flushing(todo, failed)))
  {
    var slice := todo[0];
    SplitHolds(y, todo, failed);
    if |slice| == 1 {
      FailedHolds(y, todo[1..], failed, slice[0], error);
      assert InBatch(y, slice) == Is(y, slice[0].payload, slice[0].prior, InHand) + InBatch(y, slice[1..]);
      assert slice[1..] == [];
    } else {
      HalvesHold(y, slice[..|slice| / 2], slice[|slice| / 2..], todo[1..], failed);
      assert slice[..|slice| / 2] + slice[|slice| / 2..] == slice;
    }
  }

  lemma WrittenCensus(y: Item, world: World, w: nat, store: Store)
    requires w < |world.workers| && world.workers[w].Flushing? && world.workers[w].todo != []
    requires store.table == world.store.table + Payloads(world.workers[w].todo[0])
    ensures var slice := world.workers[w].todo[0];
            var next :=
              WithWorker(world.(store := store), w, Flushing(world.workers[w].todo[1..], world.workers[w].failed));
            && Anywhere(y, next) == Anywhere(y, world) - InBatch(y, slice) + InTable(y, Payloads(slice))
            && Anywhere(y, world) >= InBatch(y, slice)
  {
    var todo, failed := world.workers[w].todo, world.workers[w].failed;
    SplitHolds(y, todo, failed);
    WorkerHolds(y, world.workers, w);
    WorkerChanges(y, world.(store := store), w, Flushing(todo[1..], failed));
    InTableConcat(y, world.store.table, Payloads(todo[0]));
  }

  lemma WriteKeeps(world: World, w: nat, refused: Option<string>)
    requires Conserved(world) && w < |world.workers| && world.workers[w].Flushing? && world.workers[w].todo != []
    requires world.workers[w].todo[0] != []
    ensures Conserved(Tried(world, w, refused))
  {
    var next := Tried(world, w, refused);
    var todo, failed := world.workers[w].todo, world.workers[w].failed;
    match Transaction(refused, world.store, todo[0])
    case Err(error) =>
      forall y ensures Anywhere(y, next) == Anywhere(y, world) {
        RefusedHolds(y, todo, failed, error);
        WorkerChanges(y, world, w, Refused(todo, failed, error));
      }
      NothingMoves(Census(world), Census(next), world.arrived, world.failures);
    case Ok(store) =>
      assert store == Written(world.store, todo[0]);
      forall y
        ensures Anywhere(y, next) == Anywhere(y, world) - InBatch(y, todo[0]) + InTable(y, Payloads(todo[0]))
        ensures Anywhere(y, world) >= InBatch(y, todo[0])
      {
        WrittenCensus(y, world, w, store);
      }
      SliceMoves(Census(world), Census(next), world.arrived, world.failures, todo[0]);
      WrittenKeepsCounters(world.store, todo[0]);
  }

  lemma TakeKeeps(world: World, r: nat)
    requires Conserved(world)
    ensures Conserved(Next(world, Take(r)))
  {
    var next, dlq := Next(world, Take(r)), world.lists.dlq;
    if r < |world.replayers| && world.replayers[r] == None && dlq != [] {
      var raw := dlq[|dlq| - 1];
      forall y
        ensures Anywhere(y, world) >= Here(y, raw, Dead)
        ensures Anywhere(y, next) == Anywhere(y, world) - Here(y, raw, Dead) + Here(y, raw, Returning)
      {
        InListLast(y, dlq, Dead);
        InReplayersUpdate(y, world.replayers, r, next.replayers[r]);
      }
      if raw.Malformed? {
        NothingMoves(Census(world), Census(next), world.arrived, world.failures);
      } else {
        var x := Item(Unwrapped(raw).payload, Unwrapped(raw).prior, Dead);
        assert Census(world)(x) > 0 by { assert Anywhere(x, world) >= Here(x, raw, Dead); }
        ClickMoves(Census(world), Census(next), world.arrived, world.failures, world.failures, x,
                   x.(place := Returning), 0);
      }
    }
  }

  lemma ReturnCensus(y: Item, world: World, r: nat)
    requires r < |world.replayers| && world.replayers[r].Some?
    ensures var raw := world.replayers[r].value;
            var place := if raw.DeadLetter? && raw.envelope.attempts >= MAX_ATTEMPTS then Parked else Queued;
            && Anywhere(y, world) >= Here(y, raw, Returning)
            && Anywhere(y, Next(world, Return(r))) == Anywhere(y, world) - Here(y, raw, Returning) + Here(y, raw, place)
  {
    var raw := world.replayers[r].value;
    ReplayerHolds(y, world.replayers, r);
    InReplayersUpdate(y, world.replayers, r, None);
    InListPushed(y, raw, world.lists.parked, Parked);
    InListPushed(y, raw, world.lists.queue, Queued);
  }

  lemma ReturnKeeps(world: World, r: nat)
    requires Conserved(world)
    ensures Conserved(Next(world, Return(r)))
  {
    var next := Next(world, Return(r));
    if r < |world.replayers| && world.replayers[r].Some? {
      var raw := world.replayers[r].value;
      var place := if raw.DeadLetter? && raw.envelope.attempts >= MAX_ATTEMPTS then Parked else Queued;
      forall y
        ensures Anywhere(y, world) >= Here(y, raw, Returning)
        ensures Anywhere(y, next) == Anywhere(y, world) - Here(y, raw, Returning) + Here(y, raw, place)
      {
        ReturnCensus(y, world, r);
      }
      if raw.Malformed? {
        NothingMoves(Census(world), Census(next), world.arrived, world.failures);
      } else {
        var x := Item(Unwrapped(raw).payload, Unwrapped(raw).prior, Returning);
        assert Census(world)(x) > 0 by { assert Anywhere(x, world) >= Here(x, raw, Returning); }
        ClickMoves(Census(world), Census(next), world.arrived, world.failures, world.failures, x,
                   x.(place := place), 0);
      }
    }
  }

  lemma StepConserves(world: World, step: Step)
    requires Conserved(world)
    ensures Conserved(Next(world, step))
  {
    match step
    case Click(link, isValid, isCounted) => ArrivalKeeps(world, step);
    case Junk(text) => ArrivalKeeps(world, step);
    case Start(w) =>
      if w < |world.workers| && world.workers[w].Idle? {
        forall y ensures Anywhere(y, Next(world, step)) == Anywhere(y, world) {
          WorkerChanges(y, world, w, Collecting(0, []));
        }
        NothingMoves(Census(world), Census(Next(world, step)), world.arrived, world.failures);
      }
    case Pop(w) => if w < |world.workers| && world.workers[w].Collecting? { PopKeeps(world, w); }
    case Reject(w, now) => if w < |world.workers| && world.workers[w].Rejecting? { RejectKeeps(world, w, now); }
    case Write(w, refused) =>
      if w < |world.workers| && world.workers[w].Flushing? && world.workers[w].todo != [] &&
         world.workers[w].todo[0] != [] {
        WriteKeeps(world, w, refused);
      }
    case BuryOne(w, now) =>
      if w < |world.workers| && world.workers[w].Flushing? && world.workers[w].todo == [] {
        BuryOneKeeps(world, w, now);
      }
    case Take(r) => TakeKeeps(world, r);
    case Return(r) => ReturnKeeps(world, r);
  }

  /**
   * However drains and replays interleave, every click that arrived is in exactly one place, its
   * envelope tells every drain that failed it, and each link's counter is its counted rows.
   */
  lemma {:induction false} EveryClickIsSomewhere(world: World, steps: seq<Step>)
    requires Conserved(world)
    ensures Conserved(Run(world, steps))
    decreases |steps|
  {
    if steps != [] {
      StepConserves(world, steps[0]);
      EveryClickIsSomewhere(Next(world, steps[0]), steps[1..]);
    }
  }

  /** Nothing queued yet, and any number of workers and replays about to begin. */
  function Opening(links: set<Link>, workers: nat, replayers: nat): World {
    World(Lists([], [], []), Store([], map l | l in links :: 0),
          seq(workers, _ => Idle), seq(replayers, _ => None), [], [])
  }

  lemma {:induction false} IdleHoldNothing(x: Item, workers: nat, replayers: nat)
    ensures InWorkers(x, seq(workers, _ => Idle)) == 0
    ensures InReplayers(x, seq(replayers, _ => None)) == 0
  {
    if workers > 0 {
      IdleHoldNothing(x, workers - 1, replayers);
      assert seq(workers, _ => Idle)[1..] == seq(workers - 1, _ => Idle);
    } else if replayers > 0 {
      IdleHoldNothing(x, workers, replayers - 1);
      assert seq<Option<Raw>>(replayers, _ => None)[1..] == seq<Option<Raw>>(replayers - 1, _ => None);
    }
  }

  lemma OpeningIsConserved(links: set<Link>, workers: nat, replayers: nat)
    ensures Conserved(Opening(links, workers, replayers))
  {
    forall x ensures Anywhere(x, Opening(links, workers, replayers)) == 0 {
      IdleHoldNothing(x, workers, replayers);
    }
  }

  /**
   * In plain words, for a click that arrived in any run from an empty queue: it is in one place,
   * once; it was failed at most three times, and it is parked exactly when it was failed three times.
   */
  lemma WhereAClickIs(links: set<Link>, workers: nat, replayers: nat, steps: seq<Step>, k: nat) returns (x: Item)
    requires k < |Run(Opening(links, workers, replayers), steps).arrived|
    ensures var world := Run(Opening(links, workers, replayers), steps);
            var times := FailuresOf(world.failures, k);
            && x.payload == world.arrived[k] && x.payload.id == k && Anywhere(x, world) == 1
            && (forall y :: Anywhere(y, world) > 0 && y.payload.id == k ==> y == x)
            && |times| <= MAX_ATTEMPTS && (x.place == Parked <==> |times| == MAX_ATTEMPTS)
            && (x.place == Dead ==> x.prior.Some? && 1 <= x.prior.value.attempts < MAX_ATTEMPTS)
            && (x.prior.Some? ==> Tells(x.prior.value, world.arrived[k], times))
  {
    OpeningIsConserved(links, workers, replayers);
    EveryClickIsSomewhere(Opening(links, workers, replayers), steps);
    var world := Run(Opening(links, workers, replayers), steps);
    assert Somewhere(Census(world), world.arrived[k]);
    x :| Census(world)(x) > 0 && x.payload == world.arrived[k];
    assert Anywhere(x, world) == 1;
    forall y | Anywhere(y, world) > 0 && y.payload.id == k
      ensures y == x
    {
      assert Census(world)(y) > 0;
    }
  }

  // ----- a drain or a replay that is not interrupted is a run

  lemma {:induction false} RunConcat(world: World, a: seq<Step>, b: seq<Step>)
    ensures Run(world, a + b) == Run(Run(world, a), b)
    decreases |a|
  {
    if a == [] {
      assert a + b == b;
    } else {
      RunConcat(Next(world, a[0]), a[1..], b);
      assert (a + b)[1..] == a[1..] + b;
    }
  }

  lemma RunStep(world: World, step: Step, rest: seq<Step>)
    ensures Run(world, [step] + rest) == Run(Next(world, step), rest)
  {
    assert ([step] + rest)[1..] == rest;
  }

  lemma RunOne(world: World, step: Step)
    ensures Run(world, [step]) == Next(world, step)
  {
    assert [step][1..] == [];
  }

  /** The run went from `world` to these lists and this store, and left worker `w` in this state. */
  predicate Reached(world: World, end: World, lists: Lists, store: Store, w: nat, worker: Worker)
    requires w < |world.workers|
  {
    end == world.(lists := lists, store := store, workers := world.workers[w := worker], failures := end.failures)
  }

  /** One pop, against one turn of the collecting loop. */
  lemma FirstPop(world: World, w: nat, dead: nat, clock: nat -> Time)
    requires w < |world.workers| && world.workers[w].Collecting?
    ensures var next, pops, batch := Next(world, Pop(w)), world.workers[w].pops, world.workers[w].batch;
            var c := Collected(world.lists, pops, batch, dead, clock);
            && next == world.(lists := next.lists, workers := next.workers)
            && next.workers == world.workers[w := next.workers[w]]
            && var after := next.workers[w];
            && !after.Idle?
            && (after.Flushing? ==> after == Complete(c.batch) && next.lists == c.lists)
            && (after.Collecting? ==>
                  pops < BATCH_MAX && after.pops == pops + 1 &&
                    c == Collected(next.lists, after.pops, after.batch, dead, clock))
            && (after.Rejecting? ==>
                  && pops < BATCH_MAX && after.pops == pops + 1
                  && c == Collected(Buried(next.lists, after.held, BAD_SCHEMA, clock(dead)), after.pops, after.batch,
                                    dead + 1, clock))
  {
  }

  lemma {:induction false} CollectIsARun(world: World, w: nat, dead: nat, clock: nat -> Time) returns (steps: seq<Step>)
    requires w < |world.workers| && world.workers[w].Collecting? && world.workers[w].pops <= BATCH_MAX
    ensures var c := Collected(world.lists, world.workers[w].pops, world.workers[w].batch, dead, clock);
            Reached(world, Run(world, steps), c.lists, world.store, w, Complete(c.batch))
    decreases BATCH_MAX - world.workers[w].pops
  {
    var next := Next(world, Pop(w));
    FirstPop(world, w, dead, clock);
    if next.workers[w].Flushing? {
      steps := [Pop(w)];
      RunOne(world, Pop(w));
    } else if next.workers[w].Rejecting? {
      var reject := Reject(w, clock(dead));
      var rest := CollectIsARun(Next(next, reject), w, dead + 1, clock);
      steps := [Pop(w)] + ([reject] + rest);
      RunStep(world, Pop(w), [reject] + rest);
      RunStep(next, reject, rest);
    } else {
      var rest := CollectIsARun(next, w, dead, clock);
      steps := [Pop(w)] + rest;
      RunStep(world, Pop(w), rest);
    }
  }

  lemma WriteIsTried(world: World, w: nat, refused: Option<string>)
    requires w < |world.workers| && world.workers[w].Flushing?
    requires |world.workers[w].todo| > 0 && |world.workers[w].todo[0]| > 0
    ensures Next(world, Write(w, refused)) == Tried(world, w, refused)
  {
  }

  /** A transaction that goes through. */
  lemma WriteCommits(world: World, w: nat, refused: Option<string>, batch: seq<Held>, rest: seq<seq<Held>>,
                     failed: seq<Failure<Held, string>>)
    requires w < |world.workers| && batch != [] && world.workers[w] == Flushing([batch] + rest, failed)
    requires Transaction(refused, world.store, batch).Ok?
    ensures Reached(world, Next(world, Write(w, refused)), world.lists, Transaction(refused, world.store, batch).value,
                    w, Flushing(rest, failed))
  {
    var todo := world.workers[w].todo;
    assert todo[1..] == rest && todo[0] == batch;
    WriteIsTried(world, w, refused);
  }

  /** One that fails on a single click. */
  lemma WriteIsolates(world: World, w: nat, refused: Option<string>, batch: seq<Held>, rest: seq<seq<Held>>,
                      failed: seq<Failure<Held, string>>)
    requires w < |world.workers| && |batch| == 1 && world.workers[w] == Flushing([batch] + rest, failed)
    requires Transaction(refused, world.store, batch).Err?
    ensures Reached(world, Next(world, Write(w, refused)), world.lists, world.store, w,
                    Flushing(rest, failed + [Failure(batch[0], Transaction(refused, world.store, batch).error)]))
  {
    var todo := world.workers[w].todo;
    assert todo[1..] == rest && todo[0] == batch;
    WriteIsTried(world, w, refused);
  }

  /** One that fails on several splits it. */
  lemma WriteSplits(verdict: Verdict, world: World, w: nat, batch: seq<Held>, rest: seq<seq<Held>>,
                    failed: seq<Failure<Held, string>>, a: seq<Held>, b: seq<Held>)
    requires w < |world.workers| && world.workers[w] == Flushing([batch] + rest, failed)
    requires Fails(Flush(verdict), world.store, batch) && |batch| > 1
    requires a == batch[..|batch| / 2] && b == batch[|batch| / 2..]
    ensures Reached(world, Next(world, Write(w, verdict(world.store, batch))), world.lists, world.store, w,
                    Flushing([a] + ([b] + rest), failed))
  {
    var refused, todo := verdict(world.store, batch), world.workers[w].todo;
    assert todo[1..] == rest && todo[0] == batch;
    WriteIsTried(world, w, refused);
    assert [a, b] + rest == [a] + ([b] + rest);
  }

  lemma {:induction false} AttemptIsARun(verdict: Verdict, world: World, w: nat, batch: seq<Held>, rest: seq<seq<Held>>,
                                         failed: seq<Failure<Held, string>>)
    returns (steps: seq<Step>)
    requires w < |world.workers| && batch != [] && world.workers[w] == Flushing([batch] + rest, failed)
    ensures var o := Attempted(Flush(verdict), world.store, batch);
            Reached(world, Run(world, steps), world.lists, o.state, w, Flushing(rest, failed + o.failed))
    decreases |batch|
  {
    var step := Write(w, verdict(world.store, batch));
    var next := Next(world, step);
    var refused := verdict(world.store, batch);
    if !Fails(Flush(verdict), world.store, batch) {
      steps := [step];
      WriteCommits(world, w, refused, batch, rest, failed);
      RunOne(world, step);
      assert failed + [] == failed;
    } else if |batch| == 1 {
      steps := [step];
      WriteIsolates(world, w, refused, batch, rest, failed);
      RunOne(world, step);
    } else {
      var a, b := Front(batch), Back(batch);
      var middle := Attempted(Flush(verdict), world.store, a).state;
      Halves(Flush(verdict), world.store, batch, middle);
      WriteSplits(verdict, world, w, batch, rest, failed, a, b);
      var left := AttemptIsARun(verdict, next, w, a, [b] + rest, failed);
      var mid, o := Run(next, left), Attempted(Flush(verdict), world.store, a);
      var right := AttemptIsARun(verdict, mid, w, b, rest, failed + o.failed);
      steps := [step] + (left + right);
      RunStep(world, step, left + right);
      RunConcat(next, left, right);
      Associates(failed, o.failed, Attempted(Flush(verdict), middle, b).failed);
    }
  }

  lemma {:induction false} BuryIsARun(world: World, w: nat, dead: nat, clock: nat -> Time) returns (steps: seq<Step>)
    requires w < |world.workers| && world.workers[w].Flushing? && world.workers[w].todo == []
    ensures Reached(world, Run(world, steps), AllBuried(world.lists, world.workers[w].failed, dead, clock), world.store,
                    w, Idle)
    decreases |world.workers[w].failed|
  {
    var step := BuryOne(w, clock(dead));
    if world.workers[w].failed == [] {
      steps := [step];
      RunOne(world, step);
    } else {
      var rest := BuryIsARun(Next(world, step), w, dead + 1, clock);
      steps := [step] + rest;
      RunStep(world, step, rest);
    }
  }

  /** So everything that holds over all runs holds of the drains the worker really makes. */
  lemma DrainIsARun(verdict: Verdict, world: World, w: nat, clock: nat -> Time) returns (steps: seq<Step>)
    requires w < |world.workers| && world.workers[w] == Idle
    ensures var d := Drained(verdict, world.lists, world.store, clock);
            Reached(world, Run(world, steps), d.lists, d.store, w, Idle)
  {
    var w0 := Next(world, Start(w));
    var collect := CollectIsARun(w0, w, 0, clock);
    var w1 := Run(w0, collect);
    var c := Collected(world.lists, 0, [], 0, clock);
    var o := Bisected(Flush(verdict), world.store, c.batch);
    var attempt: seq<Step> := [];
    if c.batch != [] {
      assert [c.batch] + [] == [c.batch];
      attempt := AttemptIsARun(verdict, w1, w, c.batch, [], []);
      assert [] + o.failed == o.failed;
    }
    var w2 := Run(w1, attempt);
    var bury := BuryIsARun(w2, w, c.dead, clock);
    steps := [Start(w)] + (collect + (attempt + bury));
    RunStep(world, Start(w), collect + (attempt + bury));
    RunConcat(w0, collect, attempt + bury);
    RunConcat(w1, attempt, bury);
  }

  lemma {:induction false} ReplayIsARun(world: World, r: nat, limit: nat) returns (steps: seq<Step>)
    requires r < |world.replayers| && world.replayers[r] == None
    ensures Run(world, steps) == world.(lists := AllReplayed(world.lists, limit))
    decreases limit
  {
    steps := [];
    var dlq := world.lists.dlq;
    if limit > 0 && dlq != [] {
      var taken := Next(world, Take(r));
      assert taken.replayers[r := None] == world.replayers;
      if dlq[|dlq| - 1] == Malformed("") {
        steps := [Take(r)];
        RunOne(world, Take(r));
      } else {
        var rest := ReplayIsARun(Next(taken, Return(r)), r, limit - 1);
        steps := [Take(r)] + ([Return(r)] + rest);
        RunStep(world, Take(r), [Return(r)] + rest);
        RunStep(taken, Return(r), rest);
      }
    }
  }
}
