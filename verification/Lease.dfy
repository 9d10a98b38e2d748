/**
 * The scheduler lease: `withLease` of apps/api/src/lib/lease.ts over Redis, with time.
 *
 * Redis has one clock, `now`. Instances acquire, renew and release by commands that Redis runs one
 * at a time; any of them may come late, fail or never come.
 */
module Lease {
  import opened Prelude

  type Instance = nat
  type Time = int

  datatype Lease = Lease(holder: Instance, expiry: Time)

  /**
   * A body is `Running` from the moment Redis grants the lease; `lastOk` is when the lease was last
   * granted or renewed. After it the lease is still to be released.
   */
  datatype Phase = Idle | Running(lastOk: Time, aborted: bool) | Ending

  datatype World = World(now: Time, key: Option<Lease>, phases: seq<Phase>)

  datatype Step =
    | Wait(ms: nat)
    | Acquire(i: Instance)
    | Renew(i: Instance)
    | Finish(i: Instance)
    | Release(i: Instance)
    | ReleaseFails(i: Instance)

  /** The key as Redis shows it: an expired one is not there. */
  function Shown(w: World): Option<Lease> {
    if w.key.Some? && w.now < w.key.value.expiry then w.key else None
  }

  predicate HeldBy(w: World, i: Instance) {
    Shown(w).Some? && Shown(w).value.holder == i
  }

  function Acquired(ttl: nat, w: World, i: Instance): World
    requires i < |w.phases|
  {
    if Shown(w).Some? then w
    else w.(key := Some(Lease(i, w.now + ttl)), phases := w.phases[i := Running(w.now, false)])
  }

  /** A renewal, which may also be a stray one of a body that is over. */
  function Renewed(ttl: nat, w: World, i: Instance): World
    requires i < |w.phases|
  {
    if HeldBy(w, i) then
      w.(key := Some(Lease(i, w.now + ttl)),
         phases := if w.phases[i].Running? then w.phases[i := w.phases[i].(lastOk := w.now)] else w.phases)
    else
      w.(phases := if w.phases[i].Running? then w.phases[i := w.phases[i].(aborted := true)] else w.phases)
  }

  function Released(w: World, i: Instance): World
    requires i < |w.phases|
  {
    w.(key := if HeldBy(w, i) then None else w.key, phases := w.phases[i := Idle])
  }

  /** One step. One that cannot be taken changes nothing. */
  function Next(ttl: nat, w: World, step: Step): World {
    match step
    case Wait(ms) => w.(now := w.now + ms)
    case Acquire(i) => if i < |w.phases| && w.phases[i].Idle? then Acquired(ttl, w, i) else w
    case Renew(i) => if i < |w.phases| then Renewed(ttl, w, i) else w
    case Finish(i) => if i < |w.phases| && w.phases[i].Running? then w.(phases := w.phases[i := Ending]) else w
    case Release(i) => if i < |w.phases| && w.phases[i].Ending? then Released(w, i) else w
    case ReleaseFails(i) => if i < |w.phases| && w.phases[i].Ending? then w.(phases := w.phases[i := Idle]) else w
  }

  function Run(ttl: nat, w: World, steps: seq<Step>): World
    decreases |steps|
  {
    if steps == [] then w else Run(ttl, Next(ttl, w, steps[0]), steps[1..])
  }

  /** The key in Redis, the instances around it and what each of them knows. */
  class Scheduler {
    const ttlMs: nat
    var now: Time
    var lease: Option<Lease>
    var phases: seq<Phase>

    ghost function View(): World
      reads this
    {
      World(now, lease, phases)
    }

    constructor (ttlMs: nat, instances: nat)
      ensures View() == World(0, None, seq(instances, _ => Idle)) && this.ttlMs == ttlMs
    {
      this.ttlMs, now, lease, phases := ttlMs, 0, None, seq(instances, _ => Idle);
    }

    /** GET */
    method Get() returns (shown: Option<Lease>)
      ensures shown == Shown(View())
    {
      return if lease.Some? && now < lease.value.expiry then lease else None;
    }

    /** SET key id PX ttl NX, and what `withLease` makes of the answer. */
    method TryAcquire(i: Instance) returns (acquired: bool)
      requires i < |phases| && phases[i].Idle?
      modifies this
      ensures View() == Next(ttlMs, old(View()), Acquire(i))
      ensures acquired <==> phases[i].Running?
    {
      var shown := Get();
      if shown.Some? { return false; }
      lease := Some(Lease(i, now + ttlMs));
      phases := phases[i := Running(now, false)];
      return true;
    }

    /** RENEW_SCRIPT, and what the timer makes of its result. */
    method RenewOnce(i: Instance) returns (result: nat)
      requires i < |phases|
      modifies this
      ensures View() == Next(ttlMs, old(View()), Renew(i))
      ensures result == if HeldBy(old(View()), i) then 1 else 0
    {
      var shown := Get();
      if shown.Some? && shown.value.holder == i {
        lease := Some(Lease(i, now + ttlMs));
        result := 1;
      } else {
        result := 0;
      }
      if phases[i].Running? {
        if result == 0 {
          if !phases[i].aborted { phases := phases[i := phases[i].(aborted := true)]; }
        } else {
          phases := phases[i := phases[i].(lastOk := now)];
        }
      }
    }

    /** RELEASE_SCRIPT, once the body is over. */
    method ReleaseOnce(i: Instance) returns (result: nat)
      requires i < |phases| && phases[i].Ending?
      modifies this
      ensures View() == Next(ttlMs, old(View()), Release(i))
      ensures result == if HeldBy(old(View()), i) then 1 else 0
    {
      var shown := Get();
      if shown.Some? && shown.value.holder == i {
        lease := None;
        result := 1;
      } else {
        result := 0;
      }
      phases := phases[i := Idle];
    }
  }

  // ----- safety

  /** A whole time-to-live has gone by since the last grant or renewal of a running body. */
  predicate Overdue(ttl: nat, w: World, i: Instance) {
    i < |w.phases| && w.phases[i].Running? && w.now >= w.phases[i].lastOk + ttl
  }

  predicate IsRunning(w: World, i: Instance) {
    i < |w.phases| && w.phases[i].Running?
  }

  /** A running body that is not overdue holds the key, for as long as it may count on it. */
  ghost predicate Guarded(ttl: nat, w: World) {
    forall i: Instance :: IsRunning(w, i) && !Overdue(ttl, w, i) ==>
      w.key.Some? && w.key.value.holder == i && w.key.value.expiry >= w.phases[i].lastOk + ttl && !w.phases[i].aborted
  }

  /** No key outlives its last grant by more than a time-to-live, and no body was granted in the future. */
  ghost predicate Timely(ttl: nat, w: World) {
    && (w.key.Some? ==> w.key.value.expiry <= w.now + ttl)
    && (forall i: Instance :: IsRunning(w, i) ==> w.phases[i].lastOk <= w.now)
    && (forall i: Instance :: IsRunning(w, i) && w.phases[i].aborted ==> !HeldBy(w, i))
  }

  lemma StepIsGuarded(ttl: nat, w: World, step: Step)
    requires Guarded(ttl, w) && Timely(ttl, w)
    ensures Guarded(ttl, Next(ttl, w, step)) && Timely(ttl, Next(ttl, w, step))
  {
    var w' := Next(ttl, w, step);
    forall i: Instance | IsRunning(w', i) && !Overdue(ttl, w', i)
      ensures w'.key.Some? && w'.key.value.holder == i && w'.key.value.expiry >= w'.phases[i].lastOk + ttl &&
              !w'.phases[i].aborted
    {
      if IsRunning(w, i) && !Overdue(ttl, w, i) { assert w.key.Some? && w.key.value.holder == i; }
    }
  }

  lemma {:induction false} EveryRunIsGuarded(ttl: nat, w: World, steps: seq<Step>)
    requires Guarded(ttl, w) && Timely(ttl, w)
    ensures Guarded(ttl, Run(ttl, w, steps)) && Timely(ttl, Run(ttl, w, steps))
    decreases |steps|
  {
    if steps != [] {
      StepIsGuarded(ttl, w, steps[0]);
      EveryRunIsGuarded(ttl, Next(ttl, w, steps[0]), steps[1..]);
    }
  }

  function Quiet(now: Time, instances: nat): World {
    World(now, None, seq(instances, _ => Idle))
  }

  /**
   * At any moment of any run: if two bodies run at once, one of them has let a whole time-to-live
   * go by without a renewal; and a body is told to abort only if it is such a one.
   */
  lemma OverlapMeansOverdue(ttl: nat, now: Time, instances: nat, steps: seq<Step>, i: Instance, j: Instance)
    ensures var w := Run(ttl, Quiet(now, instances), steps);
            && (i != j && IsRunning(w, i) && IsRunning(w, j) ==> Overdue(ttl, w, i) || Overdue(ttl, w, j))
            && (IsRunning(w, i) && w.phases[i].aborted ==> Overdue(ttl, w, i))
  {
    EveryRunIsGuarded(ttl, Quiet(now, instances), steps);
  }

  // ----- nobody touches another's lease

  /** With no timing assumption: renewing and releasing leave a lease held under another id alone. */
  lemma OthersAreLeftAlone(ttl: nat, w: World, i: Instance, j: Instance)
    requires HeldBy(w, j) && i != j
    ensures Next(ttl, w, Renew(i)).key == w.key
    ensures Next(ttl, w, Release(i)).key == w.key
    ensures Next(ttl, w, Acquire(i)).key == w.key
  {
  }

  /** The holder's release leaves no key, and any idle instance that then asks is granted the lease at once. */
  lemma ReleaseFreesTheLease(ttl: nat, w: World, i: Instance, j: Instance)
    requires i < |w.phases| && w.phases[i] == Ending && HeldBy(w, i)
    requires j < |w.phases| && (j == i || w.phases[j] == Idle)
    ensures var free := Next(ttl, w, Release(i));
            && free.key == None && free.phases == w.phases[i := Idle]
            && Granted(ttl, free, j, Next(ttl, free, Acquire(j)))
  {
  }

  /** The lease is the instance's from now on for a time-to-live, and its body runs. */
  predicate Granted(ttl: nat, w: World, j: Instance, w': World) {
    && j < |w.phases| && w'.now == w.now && w'.key == Some(Lease(j, w.now + ttl))
    && w'.phases == w.phases[j := Running(w.now, false)]
  }

  /** A body that is over, and a release that fails, leave the key as it is; it stands until it expires, no longer. */
  lemma FailedReleaseExpires(ttl: nat, w: World, i: Instance, j: Instance, ms: nat)
    requires IsRunning(w, i) && HeldBy(w, i) && j < |w.phases| && j != i && w.phases[j] == Idle
    ensures var over := Next(ttl, w, Finish(i));
            var failed := Next(ttl, over, ReleaseFails(i));
            var later := Next(ttl, failed, Wait(ms));
            && over == w.(phases := w.phases[i := Ending]) && failed == w.(phases := w.phases[i := Idle])
            && later == failed.(now := w.now + ms)
            && (if w.now + ms >= w.key.value.expiry then Granted(ttl, later, j, Next(ttl, later, Acquire(j)))
                else Next(ttl, later, Acquire(j)) == later)
  {
    assert w.phases[i := Ending][i := Idle] == w.phases[i := Idle];
  }

  /** An idle instance that asks is granted the lease exactly when none is shown; refused, it changes nothing. */
  lemma GrantedWhenFree(ttl: nat, w: World, j: Instance)
    requires j < |w.phases| && w.phases[j] == Idle
    ensures if w.key == None || w.now >= w.key.value.expiry then Granted(ttl, w, j, Next(ttl, w, Acquire(j)))
            else Next(ttl, w, Acquire(j)) == w
  {
  }

  /** A renewal puts the expiry a time-to-live ahead if the lease is still held, and else tells the body to abort. */
  lemma RenewalOutcome(ttl: nat, w: World, i: Instance)
    requires IsRunning(w, i)
    ensures var w' := Next(ttl, w, Renew(i));
            if HeldBy(w, i) then
              && w'.key == Some(Lease(i, w.now + ttl)) && w'.now == w.now
              && w'.phases == w.phases[i := w.phases[i].(lastOk := w.now)]
            else w' == w.(phases := w.phases[i := w.phases[i].(aborted := true)])
  {
  }

  /** While an instance's lease is shown, only its own release or the passing of its time takes it away. */
  lemma {:induction false} LeaseStands(ttl: nat, w: World, j: Instance, steps: seq<Step>)
    requires HeldBy(w, j) && Timely(ttl, w) && Guarded(ttl, w)
    requires forall k :: 0 <= k < |steps| ==> steps[k] != Release(j)
    requires Run(ttl, w, steps).now < w.key.value.expiry
    ensures HeldBy(Run(ttl, w, steps), j)
    decreases |steps|
  {
    if steps != [] {
      var next := Next(ttl, w, steps[0]);
      TimeMovesOn(ttl, next, steps[1..]);
      StepIsGuarded(ttl, w, steps[0]);
      assert steps[0] != Release(j);
      LeaseStands(ttl, next, j, steps[1..]);
    }
  }

  lemma {:induction false} TimeMovesOn(ttl: nat, w: World, steps: seq<Step>)
    ensures Run(ttl, w, steps).now >= w.now
    decreases |steps|
  {
    if steps != [] { TimeMovesOn(ttl, Next(ttl, w, steps[0]), steps[1..]); }
  }

  /** A run in which no running body is ever overdue. */
  ghost predicate Punctual(ttl: nat, w: World, steps: seq<Step>)
    decreases |steps|
  {
    && (forall i: Instance :: !Overdue(ttl, w, i))
    && (steps != [] ==> Punctual(ttl, Next(ttl, w, steps[0]), steps[1..]))
  }

  ghost predicate NeverTwo(ttl: nat, w: World, steps: seq<Step>)
    decreases |steps|
  {
    && (forall i: Instance, j: Instance :: IsRunning(w, i) && IsRunning(w, j) ==> i == j)
    && (steps != [] ==> NeverTwo(ttl, Next(ttl, w, steps[0]), steps[1..]))
  }

  /** Renewals less than a time-to-live apart keep bodies from ever overlapping. */
  lemma {:induction false} PunctualBodiesNeverOverlap(ttl: nat, w: World, steps: seq<Step>)
    requires Guarded(ttl, w) && Timely(ttl, w) && Punctual(ttl, w, steps)
    ensures NeverTwo(ttl, w, steps)
    decreases |steps|
  {
    if steps != [] {
      StepIsGuarded(ttl, w, steps[0]);
      PunctualBodiesNeverOverlap(ttl, Next(ttl, w, steps[0]), steps[1..]);
    }
  }

  /** The bound is exact: a body whose renewal comes a whole time-to-live after the grant can be joined by another. */
  lemma ATimeToLiveIsTooLong(ttl: nat)
    ensures var w := Run(ttl, Quiet(0, 2), [Acquire(0), Wait(ttl), Acquire(1)]);
            IsRunning(w, 0) && IsRunning(w, 1)
  {
    var w0 := Quiet(0, 2);
    var w1 := Next(ttl, w0, Acquire(0));
    var w2 := Next(ttl, w1, Wait(ttl));
    var w3 := Next(ttl, w2, Acquire(1));
    var steps := [Acquire(0), Wait(ttl), Acquire(1)];
    assert steps[1..] == [Wait(ttl), Acquire(1)];
    assert [Wait(ttl), Acquire(1)][1..] == [Acquire(1)];
    assert Run(ttl, w2, [Acquire(1)]) == w3 by { assert [Acquire(1)][1..] == []; }
    assert Run(ttl, w0, steps) == w3;
  }

  // ----- the timer

  /** How often a body's timer renews. */
  function RenewEvery(ttl: nat): nat {
    Max(1000, ttl / 3)
  }

  /** A body whose timer has ticked `ticks` times, all but the last renewal having failed on the way. */
  function Ticking(ticks: nat, every: nat): seq<Step> {
    if ticks == 0 then [Renew(0)] else [Wait(every)] + Ticking(ticks - 1, every)
  }

  lemma {:induction false} RenewedAfter(ttl: nat, w: World, ticks: nat, every: nat)
    requires w.key.Some? && w.key.value.holder == 0 && |w.phases| == 1 && w.phases[0].Running? && !w.phases[0].aborted
    ensures var w' := Run(ttl, w, Ticking(ticks, every));
            && IsRunning(w', 0)
            && (w'.phases[0].aborted <==> w.now + ticks * every >= w.key.value.expiry)
    decreases ticks
  {
    var steps := Ticking(ticks, every);
    if ticks == 0 {
      assert steps[1..] == [];
      assert Run(ttl, w, steps) == Renewed(ttl, w, 0);
    } else {
      assert steps[1..] == Ticking(ticks - 1, every);
      RenewedAfter(ttl, w.(now := w.now + every), ticks - 1, every);
      assert every + (ticks - 1) * every == ticks * every;
    }
  }

  /**
   * A body whose timer is on time survives one failed renewal if and only if the time-to-live is
   * over two seconds. It survives two in a row only if the time-to-live is over three seconds and
   * not a multiple of three milliseconds: otherwise the third comes when the lease has just run out.
   */
  lemma FailuresSurvived(ttl: nat)
    ensures var granted := Next(ttl, Quiet(0, 1), Acquire(0));
            var one := Run(ttl, granted, Ticking(2, RenewEvery(ttl)));
            var two := Run(ttl, granted, Ticking(3, RenewEvery(ttl)));
            && IsRunning(one, 0) && (!one.phases[0].aborted <==> ttl > 2000)
            && IsRunning(two, 0) && (!two.phases[0].aborted <==> ttl > 3000 && ttl % 3 != 0)
  {
    var granted := Next(ttl, Quiet(0, 1), Acquire(0));
    RenewedAfter(ttl, granted, 2, RenewEvery(ttl));
    RenewedAfter(ttl, granted, 3, RenewEvery(ttl));
  }
}
