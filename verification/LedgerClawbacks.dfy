/**
 * Clawbacks over every run: what a conversion still owes its affiliate is what its commission and
 * its adjustments add up to, and every cent of it is in a payout, on its way to one, or refused.
 */
module LedgerClawbacks {
  import opened Prelude
  import opened Money
  import opened Ledger
  import opened LedgerPayouts

  function OfConversion(v: Id): Adjustment -> int {
    (a: Adjustment) => if a.conversion == v then a.amount else 0
  }

  /** What was taken back for a conversion after its commission was paid; never positive. */
  function Clawed(b: Books, v: Id): int {
    Total(OfConversion(v), b.adjustments)
  }

  // ----- the equation

  /**
   * While the conversion stands, its commission and the adjustments make up its commission amount;
   * once it is rejected, nothing is left, whether the commission was paid or not.
   */
  predicate Balanced(b: Books, c: Commission)
    requires c.conversion < |b.conversions|
  {
    var conv, clawed := b.conversions[c.conversion], Clawed(b, c.conversion);
    && (c.status != Paid ==> clawed == 0)
    && (if conv.status == Rejected then
          c.status == Refused || c.status == ClawedBack || (c.status == Paid && c.amount + clawed == 0)
        else
          c.status != Refused && c.status != ClawedBack && c.amount + clawed == conv.commissionAmount)
  }

  ghost predicate HasCommission(b: Books, v: Id) {
    exists i :: 0 <= i < |b.commissions| && b.commissions[i].conversion == v
  }

  ghost predicate AllBalanced(b: Books) {
    && (forall i :: 0 <= i < |b.commissions| ==>
          b.commissions[i].conversion < |b.conversions| && Balanced(b, b.commissions[i]))
    && (forall k :: 0 <= k < |b.adjustments| ==> HasCommission(b, b.adjustments[k].conversion))
  }

  // ----- a late fraud block

  /** The money is already payable, in a payout, or paid and not wholly taken back. */
  predicate IsLate(b: Books, c: Commission)
    requires c.conversion < |b.conversions|
  {
    || c.status == Payable || c.status == IncludedInPayout
    || (c.status == Paid && b.conversions[c.conversion].status != Rejected &&
        b.conversions[c.conversion].commissionAmount != 0)
  }

  ghost predicate BlockIsLate(b: Books, v: Id) {
    exists i :: 0 <= i < |b.commissions| && b.commissions[i].conversion == v < |b.conversions| &&
      IsLate(b, b.commissions[i])
  }

  lemma BlockBalancesOne(b: Books, v: Id, i: Id)
    requires Sound(b) && AllBalanced(b) && v < |b.conversions| && i < |b.commissions|
    ensures var b' := BlockFraud(b, v).value;
            && b'.commissions[i].conversion == b.commissions[i].conversion
            && (Balanced(b', b'.commissions[i]) <==> b.commissions[i].conversion != v || !IsLate(b, b.commissions[i]))
  {
    assert Balanced(b, b.commissions[i]) && History(b, b.commissions[i]);
  }

  /** A fraud block keeps the equation exactly when it is not late. */
  lemma BlockBalances(b: Books, v: Id)
    requires Sound(b) && AllBalanced(b) && v < |b.conversions|
    ensures AllBalanced(BlockFraud(b, v).value) <==> !BlockIsLate(b, v)
  {
    var b' := BlockFraud(b, v).value;
    forall k | 0 <= k < |b.adjustments| ensures HasCommission(b', b'.adjustments[k].conversion) {
      assert HasCommission(b, b.adjustments[k].conversion);
      var i :| 0 <= i < |b.commissions| && b.commissions[i].conversion == b.adjustments[k].conversion;
      assert b'.commissions[i].conversion == b.adjustments[k].conversion;
    }
    forall i | 0 <= i < |b.commissions|
      ensures b'.commissions[i].conversion == b.commissions[i].conversion
      ensures Balanced(b', b'.commissions[i]) <==> b.commissions[i].conversion != v || !IsLate(b, b.commissions[i])
    {
      BlockBalancesOne(b, v, i);
    }
    if BlockIsLate(b, v) {
      var i :| 0 <= i < |b.commissions| && b.commissions[i].conversion == v && IsLate(b, b.commissions[i]);
      assert !Balanced(b', b'.commissions[i]);
    }
  }

  // ----- the other steps

  /** Every fraud block of the run comes in time. */
  ghost predicate Careful(b: Books, steps: seq<Step>)
    decreases |steps|
  {
    steps != [] ==>
      && (steps[0].FraudBlocked? ==> !BlockIsLate(b, steps[0].conversion))
      && Careful(Applied(b, steps[0]), steps[1..])
  }

  lemma NothingClawed(b: Books, v: Id)
    requires Sound(b) && v >= |b.conversions|
    ensures Clawed(b, v) == 0
  {
    forall k | 0 <= k < |b.adjustments| ensures OfConversion(v)(b.adjustments[k]) == 0 {
      assert Clawback(b, b.adjustments[k]);
    }
    TotalAtMostZero(OfConversion(v), b.adjustments);
  }

  /** Commissions stay with their conversions. */
  predicate Rooted(b: Books, b': Books) {
    && |b.commissions| <= |b'.commissions|
    && forall i :: 0 <= i < |b.commissions| ==> b'.commissions[i].conversion == b.commissions[i].conversion
  }

  lemma RootedKeeps(b: Books, b': Books, v: Id)
    requires Rooted(b, b') && HasCommission(b, v)
    ensures HasCommission(b', v)
  {
    var i :| 0 <= i < |b.commissions| && b.commissions[i].conversion == v;
    assert b'.commissions[i].conversion == v;
  }

  /** Balance is local: it is kept when the commission, its conversion and its clawbacks are kept, up to settling. */
  lemma SameClawed(b: Books, b': Books, v: Id)
    requires |b.adjustments| == |b'.adjustments|
    requires forall k :: 0 <= k < |b.adjustments| ==>
               b'.adjustments[k].conversion == b.adjustments[k].conversion &&
                 b'.adjustments[k].amount == b.adjustments[k].amount
    ensures Clawed(b', v) == Clawed(b, v)
  {
    TotalFrame(OfConversion(v), b.adjustments, OfConversion(v), b'.adjustments);
  }

  lemma ReportBalances(b: Books, affiliate: string, value: nat, commission: nat, lock: Time)
    requires Sound(b) && AllBalanced(b)
    ensures AllBalanced(Report(b, affiliate, value, commission, lock))
    ensures AllBalanced(ReportImported(b, affiliate, value, commission))
  {
    var b1, b2 := Report(b, affiliate, value, commission, lock), ReportImported(b, affiliate, value, commission);
    NothingClawed(b, |b.conversions|);
    forall i | 0 <= i < |b.commissions|
      ensures Balanced(b1, b1.commissions[i]) && Balanced(b2, b2.commissions[i])
    {
      assert Balanced(b, b.commissions[i]);
    }
    forall k | 0 <= k < |b.adjustments|
      ensures HasCommission(b1, b1.adjustments[k].conversion) && HasCommission(b2, b2.adjustments[k].conversion)
    {
      assert HasCommission(b, b.adjustments[k].conversion);
      RootedKeeps(b, b1, b.adjustments[k].conversion);
    }
  }

  lemma ReviewBalances(b: Books, conversion: Id, approve: bool, now: Time)
    requires Sound(b) && AllBalanced(b) && Review(b, conversion, approve, now).Ok?
    ensures AllBalanced(Review(b, conversion, approve, now).value)
  {
    var b' := Review(b, conversion, approve, now).value;
    forall i | 0 <= i < |b.commissions|
      ensures b'.commissions[i].conversion == b.commissions[i].conversion && Balanced(b', b'.commissions[i])
    {
      assert Balanced(b, b.commissions[i]) && History(b, b.commissions[i]);
    }
    forall k | 0 <= k < |b.adjustments|
      ensures HasCommission(b', b'.adjustments[k].conversion)
    {
      RootedKeeps(b, b', b.adjustments[k].conversion);
    }
  }

  lemma ReverseBalances(b: Books, conversion: Id, refund: Option<int>)
    requires Sound(b) && AllBalanced(b)
    ensures Reverse(b, conversion, refund).Ok? ==> AllBalanced(Reverse(b, conversion, refund).value)
  {
    if Reverse(b, conversion, refund).Err? { return; }
    var i := FindCommission(b.commissions, conversion).value;
    var o := RefundOf(b.conversions[conversion], refund).value;
    GrantedReversal(b, conversion, refund, i, o);
    var b' := Reversed(b, conversion, i, o);
    ReversedCommissions(b, conversion, i, o);
    assert HasCommission(b, conversion);
    forall k | 0 <= k < |b'.adjustments|
      ensures HasCommission(b', b'.adjustments[k].conversion)
    {
      assert k < |b.adjustments| ==> HasCommission(b, b.adjustments[k].conversion);
      RootedKeeps(b, b', b'.adjustments[k].conversion);
    }
  }

  lemma ReversedCommissions(b: Books, conversion: Id, i: Id, o: RefundOutcome)
    requires Sound(b) && AllBalanced(b) && conversion < |b.conversions| && b.conversions[conversion].status == Approved
    requires i < |b.commissions| && b.commissions[i].conversion == conversion &&
             b.commissions[i].status != IncludedInPayout
    requires o.remainingCommission + o.clawbackAmount == b.conversions[conversion].commissionAmount
    requires o.isFullRefund ==> o.clawbackAmount == b.conversions[conversion].commissionAmount
    ensures var b' := Reversed(b, conversion, i, o);
            forall j :: 0 <= j < |b.commissions| ==>
              b'.commissions[j].conversion == b.commissions[j].conversion && Balanced(b', b'.commissions[j])
  {
    var b' := Reversed(b, conversion, i, o);
    assert Balanced(b, b.commissions[i]);
    if b.commissions[i].status == Paid { assert b'.adjustments[..|b.adjustments|] == b.adjustments; }
    forall j | 0 <= j < |b.commissions|
      ensures b'.commissions[j].conversion == b.commissions[j].conversion && Balanced(b', b'.commissions[j])
    {
      assert Balanced(b, b.commissions[j]);
    }
  }

  /** Promotion and payouts move commissions along without touching what balance depends on. */
  predicate MovesAlong(b: Books, b': Books) {
    && b'.conversions == b.conversions && |b'.commissions| == |b.commissions| && |b'.adjustments| == |b.adjustments|
    && (forall i :: 0 <= i < |b.commissions| ==>
          var c, c' := b.commissions[i], b'.commissions[i];
          && c'.conversion == c.conversion && c'.amount == c.amount
          && (c'.status == c.status ||
              (c.status != Paid && c.status != Refused && c.status != ClawedBack && WasPayable(c'))))
    && (forall k :: 0 <= k < |b.adjustments| ==>
          b'.adjustments[k].conversion == b.adjustments[k].conversion &&
            b'.adjustments[k].amount == b.adjustments[k].amount)
  }

  lemma MovingAlongBalances(b: Books, b': Books)
    requires AllBalanced(b) && MovesAlong(b, b')
    ensures AllBalanced(b')
  {
    forall i | 0 <= i < |b.commissions|
      ensures Balanced(b', b'.commissions[i])
    {
      assert Balanced(b, b.commissions[i]);
      SameClawed(b, b', b.commissions[i].conversion);
    }
    forall k | 0 <= k < |b.adjustments|
      ensures HasCommission(b', b'.adjustments[k].conversion)
    {
      RootedKeeps(b, b', b.adjustments[k].conversion);
    }
  }

  lemma PromotionMovesAlong(b: Books, picked: seq<Id>, now: Time)
    requires AllBalanced(b)
    ensures AllBalanced(PromoteExpiredLocks(b, picked, now))
  {
    MovingAlongBalances(b, PromoteExpiredLocks(b, picked, now));
  }

  lemma RequestMovesAlong(b: Books, affiliate: string, key: Option<string>, fee: Percent)
    requires AllBalanced(b) && IsPercent(fee) && RequestPayout(b, affiliate, key, fee).Ok?
    ensures AllBalanced(RequestPayout(b, affiliate, key, fee).value.0)
  {
    MovingAlongBalances(b, RequestPayout(b, affiliate, key, fee).value.0);
  }

  lemma TransitionMovesAlong(b: Books, payout: Id, to: PayoutStatus, hasReason: bool)
    requires AllBalanced(b) && Transition(b, payout, to, hasReason).Ok?
    ensures AllBalanced(Transition(b, payout, to, hasReason).value)
  {
    MovingAlongBalances(b, Transition(b, payout, to, hasReason).value);
  }

  lemma SaleBalances(b: Books, step: Step)
    requires Sound(b) && AllBalanced(b) &&
             (step.SaleReported? || step.SaleImported? || step.Reviewed? || step.Refunded?)
    ensures AllBalanced(Applied(b, step))
  {
    match step
    case SaleReported(affiliate, value, commission, lock) => ReportBalances(b, affiliate, value, commission, lock);
    case SaleImported(affiliate, value, commission) => ReportBalances(b, affiliate, value, commission, 0);
    case Reviewed(conversion, approve, now) =>
      if Review(b, conversion, approve, now).Ok? { ReviewBalances(b, conversion, approve, now); }
    case Refunded(conversion, refund) =>
      if Reverse(b, conversion, refund).Ok? { ReverseBalances(b, conversion, refund); }
  }

  lemma MoneyMovesBalance(b: Books, step: Step)
    requires AllBalanced(b) && (step.LocksExpired? || step.PayoutRequested? || step.PayoutMoved?)
    ensures AllBalanced(Applied(b, step))
  {
    match step
    case LocksExpired(picked, now) => PromotionMovesAlong(b, picked, now);
    case PayoutRequested(affiliate, key, fee) =>
      if IsPercent(fee) && RequestPayout(b, affiliate, key, fee).Ok? { RequestMovesAlong(b, affiliate, key, fee); }
    case PayoutMoved(payout, to, hasReason) =>
      if Transition(b, payout, to, hasReason).Ok? { TransitionMovesAlong(b, payout, to, hasReason); }
  }

  lemma StepBalances(b: Books, step: Step)
    requires Sound(b) && AllBalanced(b)
    requires step.FraudBlocked? ==> !BlockIsLate(b, step.conversion)
    ensures AllBalanced(Applied(b, step))
  {
    if step.FraudBlocked? {
      if step.conversion < |b.conversions| { BlockBalances(b, step.conversion); }
    } else if step.LocksExpired? || step.PayoutRequested? || step.PayoutMoved? {
      MoneyMovesBalance(b, step);
    } else {
      SaleBalances(b, step);
    }
  }

  /** The clawback equation over every run whose fraud blocks come in time. */
  lemma {:induction false} ClawbacksBalance(b: Books, steps: seq<Step>)
    requires Sound(b) && AllBalanced(b) && Careful(b, steps)
    ensures Sound(Run(b, steps)) && AllBalanced(Run(b, steps))
    decreases |steps|
  {
    if steps != [] {
      StepKeeps(b, steps[0]);
      StepBalances(b, steps[0]);
      ClawbacksBalance(Applied(b, steps[0]), steps[1..]);
    }
  }

  // ----- conservation

  lemma {:induction false} TotalPlus<T>(f: T -> int, g: T -> int, h: T -> int, s: seq<T>)
    requires forall i :: 0 <= i < |s| ==> h(s[i]) == f(s[i]) + g(s[i])
    ensures Total(h, s) == Total(f, s) + Total(g, s)
  {
    if s != [] { TotalPlus(f, g, h, s[..|s| - 1]); }
  }

  /** What the conversion of a commission still earns its affiliate. */
  function Owed(b: Books): Commission -> int {
    (c: Commission) =>
      if c.conversion < |b.conversions| && b.conversions[c.conversion].status != Rejected
      then b.conversions[c.conversion].commissionAmount else 0
  }

  /** A commission in no payout and not refused. */
  function Waiting(): Commission -> int {
    (c: Commission) => if c.status == Locked || c.status == Payable then c.amount else 0
  }

  function InPayoutBelow(n: nat): Commission -> int {
    (c: Commission) => if c.payout.Some? && c.payout.value < n then c.amount else 0
  }

  function SettledBelow(n: nat): Adjustment -> int {
    (a: Adjustment) => if a.settledPayout.Some? && a.settledPayout.value < n then a.amount else 0
  }

  function Unsettled(): Adjustment -> int {
    (a: Adjustment) => if a.settledPayout == None then a.amount else 0
  }

  function AdjustedAmount(): Adjustment -> int {
    (a: Adjustment) => a.amount
  }

  /** Clawbacks taken out of a payout that was then released: the payout no longer stands, they stay settled. */
  ghost function LostIn(b: Books, n: nat): int {
    if n == 0 then 0
    else LostIn(b, n - 1) + (if EverReleased(b, n - 1) then Total(SettledIn(n - 1), b.adjustments) else 0)
  }

  /** The amounts of the first `n` payouts that were never released. */
  ghost function StandingUpTo(b: Books, n: nat): int
    requires n <= |b.payouts|
  {
    if n == 0 then 0
    else StandingUpTo(b, n - 1) + (if EverReleased(b, n - 1) then 0 else b.payouts[n - 1].amount)
  }

  lemma {:induction false} StandingIsAttached(b: Books, n: nat)
    requires Sound(b) && n <= |b.payouts|
    ensures StandingUpTo(b, n) + LostIn(b, n) ==
            Total(InPayoutBelow(n), b.commissions) + Total(SettledBelow(n), b.adjustments)
  {
    if n == 0 {
      TotalFrame(InPayoutBelow(0), [], InPayoutBelow(0), b.commissions);
      TotalFrame(SettledBelow(0), [], SettledBelow(0), b.adjustments);
    } else {
      var p := n - 1;
      StandingIsAttached(b, p);
      TotalPlus(InPayoutBelow(p), ShareOf(p), InPayoutBelow(n), b.commissions);
      TotalPlus(SettledBelow(p), SettledIn(p), SettledBelow(n), b.adjustments);
      assert Explained(b, p);
      if EverReleased(b, p) {
        forall i | 0 <= i < |b.commissions| ensures ShareOf(p)(b.commissions[i]) == 0 {
          assert Attached(b, b.commissions[i]);
        }
        TotalAtMostZero(ShareOf(p), b.commissions);
      }
    }
  }

  /** The clawbacks of the conversions behind the first `n` commissions. */
  function ClawedBehind(commissions: seq<Commission>): Adjustment -> int {
    (a: Adjustment) => if FindCommission(commissions, a.conversion).Some? then a.amount else 0
  }

  function ClawedFor(b: Books): Commission -> int {
    (c: Commission) => Clawed(b, c.conversion)
  }

  lemma {:induction false} ClawedSum(b: Books, n: nat)
    requires Sound(b) && n <= |b.commissions|
    ensures Total(ClawedFor(b), b.commissions[..n]) == Total(ClawedBehind(b.commissions[..n]), b.adjustments)
  {
    if n == 0 {
      TotalFrame(ClawedBehind([]), [], ClawedBehind([]), b.adjustments);
    } else {
      var front, all, v := b.commissions[..n - 1], b.commissions[..n], b.commissions[n - 1].conversion;
      assert all[..n - 1] == front;
      ClawedSum(b, n - 1);
      FoundIsThere(front, v);
      TotalPlus(ClawedBehind(front), OfConversion(v), ClawedBehind(all), b.adjustments);
    }
  }

  lemma EveryClawbackHasACommission(b: Books)
    requires Sound(b) && AllBalanced(b)
    ensures Total(ClawedFor(b), b.commissions) == Total(AdjustedAmount(), b.adjustments)
  {
    ClawedSum(b, |b.commissions|);
    assert b.commissions[..|b.commissions|] == b.commissions;
    forall k | 0 <= k < |b.adjustments|
      ensures ClawedBehind(b.commissions)(b.adjustments[k]) == AdjustedAmount()(b.adjustments[k])
    {
      assert HasCommission(b, b.adjustments[k].conversion);
      FoundIsThere(b.commissions, b.adjustments[k].conversion);
    }
    TotalFrame(ClawedBehind(b.commissions), b.adjustments, AdjustedAmount(), b.adjustments);
  }

  function Live(b: Books): Commission -> int {
    (c: Commission) => Waiting()(c) + InPayoutBelow(|b.payouts|)(c)
  }

  lemma LiveIsOwed(b: Books)
    requires Sound(b) && AllBalanced(b)
    ensures Total(Owed(b), b.commissions) ==
            Total(Waiting(), b.commissions) + Total(InPayoutBelow(|b.payouts|), b.commissions) +
            Total(ClawedFor(b), b.commissions)
  {
    forall i | 0 <= i < |b.commissions|
      ensures Owed(b)(b.commissions[i]) == Live(b)(b.commissions[i]) + ClawedFor(b)(b.commissions[i])
    {
      var c := b.commissions[i];
      assert Balanced(b, c) && Attached(b, c);
      assert Waiting()(c) + InPayoutBelow(|b.payouts|)(c) ==
             if c.status == Refused || c.status == ClawedBack then 0 else c.amount;
    }
    TotalPlus(Waiting(), InPayoutBelow(|b.payouts|), Live(b), b.commissions);
    TotalPlus(Live(b), ClawedFor(b), Owed(b), b.commissions);
  }

  lemma SettledOrNot(b: Books)
    requires Sound(b)
    ensures Total(AdjustedAmount(), b.adjustments) ==
            Total(SettledBelow(|b.payouts|), b.adjustments) + Total(Unsettled(), b.adjustments)
  {
    forall k | 0 <= k < |b.adjustments|
      ensures AdjustedAmount()(b.adjustments[k]) ==
              SettledBelow(|b.payouts|)(b.adjustments[k]) + Unsettled()(b.adjustments[k])
    {
      assert Clawback(b, b.adjustments[k]);
    }
    TotalPlus(SettledBelow(|b.payouts|), Unsettled(), AdjustedAmount(), b.adjustments);
  }

  /**
   * Not a cent is made or lost: the payouts that stand, the commissions still waiting and the
   * clawbacks still to be settled add up to what the conversions earn, except for the clawbacks
   * that were settled in a payout later released.
   */
  lemma MoneyIsConserved(steps: seq<Step>)
    requires Careful(EMPTY_BOOKS, steps)
    ensures var b := Run(EMPTY_BOOKS, steps);
            StandingUpTo(b, |b.payouts|) + Total(Waiting(), b.commissions) + Total(Unsettled(), b.adjustments) +
            LostIn(b, |b.payouts|) == Total(Owed(b), b.commissions)
  {
    ClawbacksBalance(EMPTY_BOOKS, steps);
    var b := Run(EMPTY_BOOKS, steps);
    StandingIsAttached(b, |b.payouts|);
    LiveIsOwed(b);
    EveryClawbackHasACommission(b);
    SettledOrNot(b);
  }

  // ----- a failed payout is retried

  lemma NothingAttachedToFailed(b: Books, p: Id, i: nat)
    requires Sound(b) && p < |b.payouts| && Releases(b.payouts[p].status) && i < |b.commissions|
    ensures b.commissions[i].payout != Some(p)
  {
    assert Explained(b, p) && Attached(b, b.commissions[i]);
  }

  lemma MoveOfFailed(b: Books, p: Id, to: PayoutStatus)
    requires p < |b.payouts| && forall i :: 0 <= i < |b.commissions| ==> b.commissions[i].payout != Some(p)
    ensures Moved(b, p, to).commissions == b.commissions
  {
  }

  lemma TransitionRuns(b: Books, p: Id, to: PayoutStatus, rest: seq<Step>)
    requires p < |b.payouts| && CanTransition(b.payouts[p].status, to)
    ensures Run(b, [PayoutMoved(p, to, true)] + rest) == Run(Moved(b, p, to), rest)
  {
    assert ([PayoutMoved(p, to, true)] + rest)[1..] == rest;
  }

  /**
   * A failed payout that is retried is settled for its full amount with no commission attached to
   * it: releasing it gave them back, and a retry does not claim them again.
   */
  lemma RetryPaysForNothing(b: Books, p: Id)
    requires Sound(b) && p < |b.payouts| && b.payouts[p].status == Failed
    ensures var b' := Run(b, [PayoutMoved(p, Processing, true), PayoutMoved(p, Settled, true)]);
            && b'.payouts == b.payouts[p := b.payouts[p].(status := Settled)]
            && b'.commissions == b.commissions && b'.adjustments == b.adjustments
            && Total(ShareOf(p), b'.commissions) == 0
  {
    forall i | 0 <= i < |b.commissions| ensures b.commissions[i].payout != Some(p) {
      NothingAttachedToFailed(b, p, i);
    }
    TotalAtMostZero(ShareOf(p), b.commissions);
    var b1 := Moved(b, p, Processing);
    MoveOfFailed(b, p, Processing);
    MoveOfFailed(b1, p, Settled);
    TransitionRuns(b, p, Processing, [PayoutMoved(p, Settled, true)]);
    TransitionRuns(b1, p, Settled, []);
    assert [PayoutMoved(p, Settled, true)] + [] == [PayoutMoved(p, Settled, true)];
  }
}
