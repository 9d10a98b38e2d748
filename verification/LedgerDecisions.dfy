/**
 * Decisions about payouts that overlap.
 *
 * `transition` reads a payout's status and checks the move under no lock and before its transaction
 * begins. Between the two, anything may happen: another decision about the same payout too.
 */
module LedgerDecisions {
  import opened Prelude
  import opened Money
  import opened Ledger
  import opened LedgerPayouts

  /** The ledger, and the decisions that have been taken but not committed. */
  datatype World = World(books: Books, decided: seq<Decision>)

  datatype Act =
    | Stepped(step: Step)
    | Decided(payout: Id, to: PayoutStatus, hasReason: bool)
    | CommittedAt(k: nat)

  function After(w: World, act: Act): World {
    match act
    case Stepped(step) => w.(books := Applied(w.books, step))
    case Decided(payout, to, hasReason) =>
      (match Decide(w.books, payout, to, hasReason)
       case Ok(d) => w.(decided := w.decided + [d])
       case Err(_) => w)
    case CommittedAt(k) =>
      if k < |w.decided| && w.decided[k].payout < |w.books.payouts| then
        World(Committed(w.books, w.decided[k]), w.decided[..k] + w.decided[k + 1..])
      else w
  }

  function RunAll(w: World, acts: seq<Act>): World
    decreases |acts|
  {
    if acts == [] then w else RunAll(After(w, acts[0]), acts[1..])
  }

  /** Every pending decision is of a payout that is there, and its move is in the table. */
  predicate Allowed(w: World) {
    forall k :: 0 <= k < |w.decided| ==>
      w.decided[k].payout < |w.books.payouts| && CanTransition(w.decided[k].from, w.decided[k].to)
  }

  lemma PayoutsStay(b: Books, step: Step)
    ensures |Applied(b, step).payouts| >= |b.payouts|
  {
  }

  lemma AllowedStays(w: World, act: Act)
    requires Allowed(w)
    ensures Allowed(After(w, act))
  {
    if act.Stepped? { PayoutsStay(w.books, act.step); }
  }

  // ----- over runs

  /** Every commit settles its payout, or comes while nothing has been paid in it. */
  ghost predicate NoneReopensPaid(w: World, acts: seq<Act>)
    decreases |acts|
  {
    acts != [] ==>
      && (acts[0].CommittedAt? && acts[0].k < |w.decided| ==>
            w.decided[acts[0].k].to == Settled || !HasPaid(w.books, w.decided[acts[0].k].payout))
      && NoneReopensPaid(After(w, acts[0]), acts[1..])
  }

  ghost predicate AlwaysSound(w: World, acts: seq<Act>)
    decreases |acts|
  {
    Sound(w.books) && (acts != [] ==> AlwaysSound(After(w, acts[0]), acts[1..]))
  }

  /**
   * A run with decisions that overlap is sound all along if and only if no commit releases or
   * restarts a payout in which something has been paid.
   */
  lemma {:induction false} SoundIffNoneReopensPaid(w: World, acts: seq<Act>)
    requires Sound(w.books) && Allowed(w)
    ensures AlwaysSound(w, acts) <==> NoneReopensPaid(w, acts)
    decreases |acts|
  {
    if acts != [] {
      var w', act := After(w, acts[0]), acts[0];
      AllowedStays(w, act);
      if act.Stepped? {
        StepKeeps(w.books, act.step);
      } else if act.CommittedAt? && act.k < |w.decided| {
        CommitIsSound(w.books, w.decided[act.k]);
      }
      if Sound(w'.books) { SoundIffNoneReopensPaid(w', acts[1..]); }
    }
  }

  // ----- decisions that are not overtaken

  /** Every commit finds its payout in the status its decision read. */
  ghost predicate NeverOvertaken(w: World, acts: seq<Act>)
    decreases |acts|
  {
    acts != [] ==>
      && (acts[0].CommittedAt? && acts[0].k < |w.decided| && w.decided[acts[0].k].payout < |w.books.payouts| ==>
            w.books.payouts[w.decided[acts[0].k].payout].status == w.decided[acts[0].k].from)
      && NeverOvertaken(After(w, acts[0]), acts[1..])
  }

  /** The same run with each decision taken at the moment it is committed. */
  function Serialised(w: World, acts: seq<Act>): seq<Step>
    decreases |acts|
  {
    if acts == [] then []
    else
      var rest := Serialised(After(w, acts[0]), acts[1..]);
      match acts[0]
      case Stepped(step) => [step] + rest
      case Decided(_, _, _) => rest
      case CommittedAt(k) =>
        if k < |w.decided| then [PayoutMoved(w.decided[k].payout, w.decided[k].to, true)] + rest else rest
  }

  /**
   * If no decision is overtaken the run is one of undivided transitions, so all that is proved of
   * those holds of it.
   */
  lemma {:induction false} UnovertakenIsSerial(w: World, acts: seq<Act>)
    requires Allowed(w) && NeverOvertaken(w, acts)
    ensures RunAll(w, acts).books == Run(w.books, Serialised(w, acts))
    decreases |acts|
  {
    if acts != [] {
      var w', rest := After(w, acts[0]), Serialised(After(w, acts[0]), acts[1..]);
      AllowedStays(w, acts[0]);
      UnovertakenIsSerial(w', acts[1..]);
      match acts[0] {
        case Stepped(step) => assert ([step] + rest)[1..] == rest;
        case Decided(_, _, _) =>
        case CommittedAt(k) =>
          if k < |w.decided| {
            var move := PayoutMoved(w.decided[k].payout, w.decided[k].to, true);
            assert Applied(w.books, move) == w'.books;
            assert ([move] + rest)[1..] == rest;
          }
      }
    }
  }

  // ----- the trail of a payout's events

  /** Where the events say a payout is. */
  function StatusAfter(events: seq<PayoutEvent>, payout: Id): Option<PayoutStatus> {
    if events == [] then None
    else if events[|events| - 1].payout == payout then Some(events[|events| - 1].to)
    else StatusAfter(events[..|events| - 1], payout)
  }

  /** The first event of a payout is its request; every other starts where the one before it led. */
  predicate Follows(before: seq<PayoutEvent>, event: PayoutEvent) {
    match StatusAfter(before, event.payout)
    case None => event.from == event.to == Requested
    case Some(status) => event.from == status && CanTransition(status, event.to)
  }

  /** The events of every payout are a path through the transition table that ends at its status. */
  ghost predicate TrailKept(b: Books) {
    && (forall k :: 0 <= k < |b.events| ==> Follows(b.events[..k], b.events[k]))
    && (forall p :: 0 <= p < |b.payouts| ==> StatusAfter(b.events, p) == Some(b.payouts[p].status))
    && (forall k :: 0 <= k < |b.events| ==> b.events[k].payout < |b.payouts|)
  }

  lemma OneEventMore(events: seq<PayoutEvent>, event: PayoutEvent, p: Id)
    ensures StatusAfter(events + [event], p) == if event.payout == p then Some(event.to) else StatusAfter(events, p)
  {
    assert (events + [event])[..|events|] == events;
  }

  lemma EventsFollow(events: seq<PayoutEvent>, event: PayoutEvent)
    requires forall k :: 0 <= k < |events| ==> Follows(events[..k], events[k])
    ensures Follows(events, event) <==>
            forall k :: 0 <= k < |events + [event]| ==> Follows((events + [event])[..k], (events + [event])[k])
  {
    var more := events + [event];
    forall k | 0 <= k < |events| ensures Follows(more[..k], more[k]) {
      assert more[..k] == events[..k];
    }
    assert more[..|events|] == events && more[|events|] == event;
  }

  lemma {:induction false} NoEventYet(events: seq<PayoutEvent>, p: Id)
    requires forall k :: 0 <= k < |events| ==> events[k].payout != p
    ensures StatusAfter(events, p) == None
  {
    if events != [] { NoEventYet(events[..|events| - 1], p); }
  }

  /** The trail of a payout stays whole exactly when its status is still what the decision read. */
  lemma CommitKeepsTrail(b: Books, d: Decision)
    requires TrailKept(b) && d.payout < |b.payouts| && CanTransition(d.from, d.to)
    ensures TrailKept(Committed(b, d)) <==> b.payouts[d.payout].status == d.from
  {
    var b', event := Committed(b, d), PayoutEvent(d.payout, d.from, d.to);
    EventsFollow(b.events, event);
    forall p | 0 <= p < |b.payouts| ensures StatusAfter(b'.events, p) == Some(b'.payouts[p].status) {
      OneEventMore(b.events, event, p);
    }
    assert Follows(b.events, event) <==> b.payouts[d.payout].status == d.from;
  }

  lemma ClaimKeepsTrail(b: Books, affiliate: string, gross: int, key: Option<string>, fee: Percent)
    requires TrailKept(b) && IsPercent(fee)
    ensures TrailKept(Claimed(b, affiliate, gross, key, fee))
  {
    var b', event := Claimed(b, affiliate, gross, key, fee), PayoutEvent(|b.payouts|, Requested, Requested);
    NoEventYet(b.events, |b.payouts|);
    EventsFollow(b.events, event);
    forall p | 0 <= p < |b'.payouts| ensures StatusAfter(b'.events, p) == Some(b'.payouts[p].status) {
      OneEventMore(b.events, event, p);
    }
  }

  lemma StepKeepsTrail(b: Books, step: Step)
    requires TrailKept(b)
    ensures TrailKept(Applied(b, step))
  {
    if step.PayoutRequested? && IsPercent(step.fee) && RequestPayout(b, step.affiliate, step.key, step.fee).Ok? {
      GrantedRequest(b, step.affiliate, step.key, step.fee);
      var total := Total(AmountIf(PayableTo(step.affiliate)), b.commissions) +
                   Total(AdjustmentIf(UnsettledOf(step.affiliate)), b.adjustments);
      ClaimKeepsTrail(b, step.affiliate, total, step.key, step.fee);
    } else if step.PayoutMoved? && Decide(b, step.payout, step.to, step.hasReason).Ok? {
      CommitKeepsTrail(b, Decision(step.payout, b.payouts[step.payout].status, step.to));
    } else {
      assert Applied(b, step).payouts == b.payouts && Applied(b, step).events == b.events;
    }
  }

  ghost predicate TrailAlwaysKept(w: World, acts: seq<Act>)
    decreases |acts|
  {
    TrailKept(w.books) && (acts != [] ==> TrailAlwaysKept(After(w, acts[0]), acts[1..]))
  }

  /** The events of every payout tell a legal story all along if and only if no decision is overtaken. */
  lemma {:induction false} TrailIffNeverOvertaken(w: World, acts: seq<Act>)
    requires TrailKept(w.books) && Allowed(w)
    ensures TrailAlwaysKept(w, acts) <==> NeverOvertaken(w, acts)
    decreases |acts|
  {
    if acts != [] {
      var w', act := After(w, acts[0]), acts[0];
      AllowedStays(w, act);
      if act.Stepped? {
        StepKeepsTrail(w.books, act.step);
      } else if act.CommittedAt? && act.k < |w.decided| {
        CommitKeepsTrail(w.books, w.decided[act.k]);
      }
      if TrailKept(w'.books) { TrailIffNeverOvertaken(w', acts[1..]); }
    }
  }

  // ----- two decisions that overlap

  const ONE_PERCENT := Percent(1, 1)

  const SALE := SaleReported("affiliate", 100000, 10000, 0)
  const REVIEW := Reviewed(0, true, 0)
  const REQUEST := PayoutRequested("affiliate", None, ONE_PERCENT)
  const PROCESS := PayoutMoved(0, Processing, true)

  /** A commission of 100 dollars in a payout that is being processed. */
  function OneInProcess(): seq<Step> {
    [SALE] + ([REVIEW] + ([REQUEST] + ([PROCESS] + [])))
  }

  /** Both administrators see the payout in process; one settles it and the other fails it. */
  function Overlapping(settledFirst: bool): seq<Act> {
    var pay, fail := Decided(0, Settled, true), Decided(0, Failed, true);
    (if settledFirst then [pay, fail] else [fail, pay]) + [CommittedAt(0), CommittedAt(0)]
  }

  lemma RunStep(b: Books, step: Step, rest: seq<Step>)
    ensures Run(b, [step] + rest) == Run(Applied(b, step), rest)
  {
    assert ([step] + rest)[1..] == rest;
  }

  lemma Approved()
    ensures var b := Applied(Applied(EMPTY_BOOKS, SALE), REVIEW);
            && b.commissions == [Commission("affiliate", 0, 10000, Payable, 0, Some(0), None)]
            && b.adjustments == [] && b.payouts == []
  {
  }

  lemma InProcess()
    ensures var b := Run(EMPTY_BOOKS, OneInProcess());
            && |b.payouts| == 1 && b.payouts[0].status == Processing
            && b.commissions == [Commission("affiliate", 0, 10000, IncludedInPayout, 0, Some(0), Some(0))]
  {
    var b1 := Applied(EMPTY_BOOKS, SALE);
    var b2 := Applied(b1, REVIEW);
    var b3 := Applied(b2, REQUEST);
    RunStep(EMPTY_BOOKS, SALE, [REVIEW] + ([REQUEST] + ([PROCESS] + [])));
    RunStep(b1, REVIEW, [REQUEST] + ([PROCESS] + []));
    RunStep(b2, REQUEST, [PROCESS] + []);
    RunStep(b3, PROCESS, []);
    Approved();
    Payables(b2);
    ClaimedAndProcessed(b2);
  }

  lemma ClaimedAndProcessed(b: Books)
    requires b.commissions == [Commission("affiliate", 0, 10000, Payable, 0, Some(0), None)] && b.payouts == []
    ensures var b' := Applied(Claimed(b, "affiliate", 10000, None, ONE_PERCENT), PROCESS);
            && |b'.payouts| == 1 && b'.payouts[0].status == Processing
            && b'.commissions == [Commission("affiliate", 0, 10000, IncludedInPayout, 0, Some(0), Some(0))]
  {
  }

  lemma Payables(b: Books)
    requires b.commissions == [Commission("affiliate", 0, 10000, Payable, 0, Some(0), None)]
    requires b.adjustments == [] && b.payouts == []
    ensures RequestPayout(b, "affiliate", None, ONE_PERCENT) ==
            Ok((Claimed(b, "affiliate", 10000, None, ONE_PERCENT), 0))
  {
    var p := PayableTo("affiliate");
    assert p(b.commissions[0]);
    assert b.commissions[..0] == [];
    assert Total(AmountIf(p), b.commissions) == 10000;
  }

  lemma TwoDecided(b: Books, first: Decision, second: Decision)
    requires |b.payouts| == 1 && b.payouts[0].status == Processing
    requires first == Decision(0, Processing, first.to) && second == Decision(0, Processing, second.to)
    requires {first.to, second.to} == {Settled, Failed}
    ensures RunAll(World(b, []),
                   [Decided(0, first.to, true), Decided(0, second.to, true), CommittedAt(0), CommittedAt(0)]).books ==
            Committed(Committed(b, first), second)
  {
    var commit := CommittedAt(0);
    var acts := [Decided(0, first.to, true), Decided(0, second.to, true), commit, commit];
    assert acts[1..] == [acts[1], commit, commit] && acts[1..][1..] == [commit, commit] &&
           [commit, commit][1..] == [commit];
    var none: seq<Act> := [];
    assert [commit][1..] == none;
    var w1 := After(World(b, []), acts[0]);
    assert w1 == World(b, [first]);
    var w2 := After(w1, acts[1]);
    assert w2 == World(b, [first, second]);
    var w3 := After(w2, commit);
    assert w3 == World(Committed(b, first), [second]);
    var w4 := After(w3, commit);
    assert w4.books == Committed(Committed(b, first), second);
    assert RunAll(World(b, []), acts) == RunAll(w1, acts[1..]) == RunAll(w2, [commit, commit]);
    assert RunAll(w2, [commit, commit]) == RunAll(w3, [commit]) == w4;
  }

  /** What each order of the two commits leaves of the payout and its commission. */
  lemma BothCommitted(b: Books, first: Decision, second: Decision)
    requires Sound(b) && |b.payouts| == 1 && b.payouts[0].status == Processing
    requires b.commissions == [Commission("affiliate", 0, 10000, IncludedInPayout, 0, Some(0), Some(0))]
    requires first == Decision(0, Processing, first.to) && second == Decision(0, Processing, second.to)
    requires {first.to, second.to} == {Settled, Failed}
    ensures var b' := Committed(Committed(b, first), second);
            && |b'.payouts| == |b'.commissions| == 1 && b'.payouts[0].status == second.to
            && b'.commissions[0].status == (if first.to == Settled then Paid else Payable)
            && b'.commissions[0].payout == (if first.to == Settled then Some(0) else None)
            && (Sound(b') <==> first.to == Failed)
  {
    var b1 := Committed(b, first);
    CommitIsSound(b, first);
    CommitIsSound(b1, second);
    if first.to == Settled {
      assert IsPaidIn(b1.commissions[0], 0) && second.to == Failed;
    } else {
      assert first.to == Failed && second.to == Settled;
    }
  }

  /**
   * Two decisions that overlap on one payout: settled and then failed, it is a failed payout with a
   * paid commission; failed and then settled, it is settled and its commission can be paid again.
   */
  lemma OverlappingDecisionsClash(settledFirst: bool)
    ensures var w := RunAll(World(Run(EMPTY_BOOKS, OneInProcess()), []), Overlapping(settledFirst));
            && |w.books.payouts| == |w.books.commissions| == 1
            && var payout, c := w.books.payouts[0], w.books.commissions[0];
            if settledFirst then
              payout.status == Failed && c.status == Paid && c.payout == Some(0) && !Sound(w.books)
            else
              payout.status == Settled && c.status == Payable && c.payout == None && Sound(w.books)
  {
    InProcess();
    var b := Run(EMPTY_BOOKS, OneInProcess());
    EveryRunIsSound(EMPTY_BOOKS, OneInProcess());
    var pay, fail := Decision(0, Processing, Settled), Decision(0, Processing, Failed);
    var first, second := if settledFirst then pay else fail, if settledFirst then fail else pay;
    TwoDecided(b, first, second);
    assert Overlapping(settledFirst) ==
           [Decided(0, first.to, true), Decided(0, second.to, true), CommittedAt(0), CommittedAt(0)];
    BothCommitted(b, first, second);
  }

  // ----- one open payout at a time

  /** What PAYOUT_IN_FLIGHT is for: no affiliate has two open payouts. */
  ghost predicate OneOpen(b: Books) {
    forall p, q :: 0 <= p < q < |b.payouts| && b.payouts[p].affiliate == b.payouts[q].affiliate ==>
      !(IsOpen(b.payouts[p].status) && IsOpen(b.payouts[q].status))
  }

  /** Another payout of the same affiliate is open. */
  ghost predicate OtherOpen(b: Books, payout: Id)
    requires payout < |b.payouts|
  {
    exists q :: 0 <= q < |b.payouts| && q != payout && b.payouts[q].affiliate == b.payouts[payout].affiliate &&
                IsOpen(b.payouts[q].status)
  }

  /** Such a move puts a payout back in process beside another. */
  ghost predicate Crowds(b: Books, payout: Id, to: PayoutStatus) {
    payout < |b.payouts| && to == Processing && !IsOpen(b.payouts[payout].status) && OtherOpen(b, payout)
  }

  lemma CommitKeepsOneOpen(b: Books, d: Decision)
    requires OneOpen(b) && d.payout < |b.payouts| && CanTransition(d.from, d.to)
    ensures OneOpen(Committed(b, d)) <==> !Crowds(b, d.payout, d.to)
  {
    var b' := Committed(b, d);
    if Crowds(b, d.payout, d.to) {
      var q :| 0 <= q < |b.payouts| && q != d.payout && b.payouts[q].affiliate == b.payouts[d.payout].affiliate &&
               IsOpen(b.payouts[q].status);
      assert b'.payouts[q] == b.payouts[q] && IsOpen(b'.payouts[d.payout].status);
    }
  }

  lemma StepKeepsOneOpen(b: Books, step: Step)
    requires OneOpen(b)
    ensures OneOpen(Applied(b, step)) <==> !(step.PayoutMoved? && Decide(b, step.payout, step.to, step.hasReason).Ok? &&
                                             Crowds(b, step.payout, step.to))
  {
    if step.PayoutRequested? && IsPercent(step.fee) {
      NoneFound(OpenFor(step.affiliate), b.payouts);
    } else if step.PayoutMoved? && Decide(b, step.payout, step.to, step.hasReason).Ok? {
      CommitKeepsOneOpen(b, Decision(step.payout, b.payouts[step.payout].status, step.to));
    } else {
      assert Applied(b, step).payouts == b.payouts;
    }
  }

  ghost predicate AlwaysOneOpen(w: World, acts: seq<Act>)
    decreases |acts|
  {
    OneOpen(w.books) && (acts != [] ==> AlwaysOneOpen(After(w, acts[0]), acts[1..]))
  }

  /** No retry, undivided or overlapping, comes while another payout of the affiliate is open. */
  ghost predicate NoneCrowds(w: World, acts: seq<Act>)
    decreases |acts|
  {
    acts != [] ==>
      && (acts[0].Stepped? && acts[0].step.PayoutMoved? &&
          Decide(w.books, acts[0].step.payout, acts[0].step.to, acts[0].step.hasReason).Ok? ==>
            !Crowds(w.books, acts[0].step.payout, acts[0].step.to))
      && (acts[0].CommittedAt? && acts[0].k < |w.decided| ==>
            !Crowds(w.books, w.decided[acts[0].k].payout, w.decided[acts[0].k].to))
      && NoneCrowds(After(w, acts[0]), acts[1..])
  }

  /** An affiliate has at most one open payout all along if and only if no failed one is retried beside another. */
  lemma {:induction false} OneOpenIffNoneCrowds(w: World, acts: seq<Act>)
    requires OneOpen(w.books) && Allowed(w)
    ensures AlwaysOneOpen(w, acts) <==> NoneCrowds(w, acts)
    decreases |acts|
  {
    if acts != [] {
      var w', act := After(w, acts[0]), acts[0];
      AllowedStays(w, act);
      if act.Stepped? {
        StepKeepsOneOpen(w.books, act.step);
      } else if act.CommittedAt? && act.k < |w.decided| {
        CommitKeepsOneOpen(w.books, w.decided[act.k]);
      }
      if OneOpen(w'.books) { OneOpenIffNoneCrowds(w', acts[1..]); }
    }
  }
}
