/**
 * The money ledger: conversions, commissions, balance adjustments, payouts and payout events, and
 * the transactions of conversion.service.ts, payout.service.ts, lock-expiry.worker.ts and the
 * fraud decision of admin.routes.ts (all in apps/api/src).
 *
 * No ledger row is ever deleted, so a row's id is its place in its table. Amounts are cents.
 */
module Ledger {
  import opened Prelude
  import opened Money

  type Id = nat
  type Time = int

  datatype ConversionStatus = Pending | Approved | Rejected

  datatype Conversion =
    Conversion(affiliate: string, value: int, commissionAmount: int, status: ConversionStatus, approvedAt: Option<Time>)

  datatype CommissionStatus = Locked | Payable | IncludedInPayout | Paid | Refused | ClawedBack

  /** `Payable` is the source's APPROVED and `Refused` its REJECTED; its PENDING is never written. */
  datatype Commission =
    Commission(affiliate: string, conversion: Id, amount: int, status: CommissionStatus, lockExpiresAt: Time,
               approvedAt: Option<Time>, payout: Option<Id>)

  datatype Adjustment = Adjustment(affiliate: string, amount: int, conversion: Id, settledPayout: Option<Id>)

  datatype PayoutStatus = Requested | Processing | Settled | Failed | Cancelled

  /** `Requested` is the source's PENDING and `Settled` its PAID. */
  datatype Payout =
    Payout(affiliate: string, amount: int, fee: int, net: int, status: PayoutStatus, idempotencyKey: Option<string>)

  datatype PayoutEvent = PayoutEvent(payout: Id, from: PayoutStatus, to: PayoutStatus)

  datatype Books = Books(conversions: seq<Conversion>, commissions: seq<Commission>, adjustments: seq<Adjustment>,
                         payouts: seq<Payout>, events: seq<PayoutEvent>)

  const EMPTY_BOOKS := Books([], [], [], [], [])

  datatype LedgerError =
    | NotFound
    | AlreadyReviewed
    | NotApproved
    | BadRefund(reason: RefundError)
    | CommissionInPayout
    | PayoutInFlight(open: Id)
    | NothingApproved
    | BelowMinimum
    | InvalidTransition
    | ReasonRequired

  const MINIMUM_PAYOUT := 5000
  const LOCK_BATCH := 200

  // ----- tables

  /** `updateMany`: every row that matches is rewritten. */
  function Updated<T>(rows: seq<T>, matches: T -> bool, change: T -> T): seq<T> {
    seq(|rows|, i requires 0 <= i < |rows| => if matches(rows[i]) then change(rows[i]) else rows[i])
  }

  /** The sum of `f` over a table. */
  function Total<T>(f: T -> int, rows: seq<T>): int {
    if rows == [] then 0 else Total(f, rows[..|rows| - 1]) + f(rows[|rows| - 1])
  }

  /** The first commission of a conversion. */
  function FindCommission(commissions: seq<Commission>, conversion: Id): Option<Id> {
    if commissions == [] then None
    else
      var last := |commissions| - 1;
      match FindCommission(commissions[..last], conversion)
      case Some(i) => Some(i)
      case None => if commissions[last].conversion == conversion then Some(last) else None
  }

  // ----- a sale is recorded

  function Report(b: Books, affiliate: string, value: nat, commission: nat, lockExpiresAt: Time): Books {
    b.(conversions := b.conversions + [Conversion(affiliate, value, commission, Pending, None)],
       commissions := b.commissions +
         [Commission(affiliate, |b.conversions|, commission, Locked, lockExpiresAt, None, None)])
  }

  /** An imported conversion has no commission. */
  function ReportImported(b: Books, affiliate: string, value: nat, commission: nat): Books {
    b.(conversions := b.conversions + [Conversion(affiliate, value, commission, Pending, None)])
  }

  // ----- the brand reviews it

  function Review(b: Books, conversion: Id, approve: bool, now: Time): Result<Books, LedgerError> {
    if conversion >= |b.conversions| then Err(NotFound)
    else if b.conversions[conversion].status != Pending then Err(AlreadyReviewed)
    else
      var conv := b.conversions[conversion];
      if approve then
        Ok(b.(conversions := b.conversions[conversion := conv.(status := Approved, approvedAt := Some(now))],
              commissions := Updated(b.commissions,
                (c: Commission) => c.conversion == conversion && c.lockExpiresAt <= now,
                (c: Commission) => c.(status := Payable, approvedAt := Some(now)))))
      else
        Ok(b.(conversions := b.conversions[conversion := conv.(status := Rejected)],
              commissions := Updated(b.commissions,
                (c: Commission) => c.conversion == conversion,
                (c: Commission) => c.(status := Refused))))
  }

  // ----- a sale is refunded

  function Reversed(b: Books, conversion: Id, commission: Id, o: RefundOutcome): Books
    requires conversion < |b.conversions| && commission < |b.commissions|
  {
    var conv, com := b.conversions[conversion], b.commissions[commission];
    var conv' := if o.isFullRefund then conv.(status := Rejected)
                 else conv.(value := o.remainingValue, commissionAmount := o.remainingCommission);
    var b' := b.(conversions := b.conversions[conversion := conv']);
    if com.status == Paid then
      b'.(adjustments := b.adjustments + [Adjustment(conv.affiliate, -o.clawbackAmount, conversion, None)])
    else if o.isFullRefund then
      b'.(commissions := b.commissions[commission := com.(status := ClawedBack)])
    else
      b'.(commissions := b.commissions[commission := com.(amount := o.remainingCommission)])
  }

  function Reverse(b: Books, conversion: Id, refundAmount: Option<int>): Result<Books, LedgerError> {
    if conversion >= |b.conversions| then Err(NotFound)
    else
      var conv := b.conversions[conversion];
      if conv.status != Approved then Err(NotApproved)
      else
        var refund := if refundAmount.Some? then refundAmount.value else conv.value;
        match CalculateRefund(conv.value, conv.commissionAmount, refund)
        case Err(reason) => Err(BadRefund(reason))
        case Ok(o) =>
          match FindCommission(b.commissions, conversion)
          case None => Err(NotFound)
          case Some(i) =>
            if i < |b.commissions| && b.commissions[i].status != IncludedInPayout then Ok(Reversed(b, conversion, i, o))
            else Err(CommissionInPayout)
  }

  /** An administrator's fraud decision, whatever state the conversion and commission are in. */
  function BlockFraud(b: Books, conversion: Id): Result<Books, LedgerError> {
    if conversion >= |b.conversions| then Err(NotFound)
    else
      Ok(b.(conversions := b.conversions[conversion := b.conversions[conversion].(status := Rejected)],
            commissions := Updated(b.commissions,
              (c: Commission) => c.conversion == conversion && c.status == Locked,
              (c: Commission) => c.(status := ClawedBack))))
  }

  // ----- locks expire

  predicate IsExpiredLock(c: Commission, now: Time) {
    c.status == Locked && c.lockExpiresAt <= now
  }

  predicate IsPromotable(b: Books, c: Commission, now: Time) {
    IsExpiredLock(c, now) && c.conversion < |b.conversions| && b.conversions[c.conversion].status == Approved
  }

  function PromotableIn(b: Books, now: Time): Id -> bool {
    (i: Id) => i < |b.commissions| && IsPromotable(b, b.commissions[i], now)
  }

  /** `picked` are the expired locks the query happened to return. */
  function PromoteExpiredLocks(b: Books, picked: seq<Id>, now: Time): Books {
    b.(commissions := seq(|b.commissions|, i requires 0 <= i < |b.commissions| =>
      if i in picked && IsPromotable(b, b.commissions[i], now)
      then b.commissions[i].(status := Payable, approvedAt := Some(now))
      else b.commissions[i]))
  }

  // ----- payouts

  function PayableTo(affiliate: string): Commission -> bool {
    (c: Commission) => c.affiliate == affiliate && c.status == Payable
  }

  function UnsettledOf(affiliate: string): Adjustment -> bool {
    (a: Adjustment) => a.affiliate == affiliate && a.settledPayout == None
  }

  function AmountIf(p: Commission -> bool): Commission -> int {
    (c: Commission) => if p(c) then c.amount else 0
  }

  function AdjustmentIf(p: Adjustment -> bool): Adjustment -> int {
    (a: Adjustment) => if p(a) then a.amount else 0
  }

  predicate IsOpen(status: PayoutStatus) {
    status == Requested || status == Processing
  }

  /** The first payout of a table that satisfies `p`. */
  function FirstPayout(p: Payout -> bool, payouts: seq<Payout>): Option<Id> {
    if payouts == [] then None
    else
      var last := |payouts| - 1;
      match FirstPayout(p, payouts[..last])
      case Some(i) => Some(i)
      case None => if p(payouts[last]) then Some(last) else None
  }

  function WithKey(affiliate: string, key: Option<string>): Payout -> bool {
    (p: Payout) => key.Some? && key.value != "" && p.affiliate == affiliate && p.idempotencyKey == key
  }

  function OpenFor(affiliate: string): Payout -> bool {
    (p: Payout) => p.affiliate == affiliate && IsOpen(p.status)
  }

  predicate Exists<T>(p: T -> bool, rows: seq<T>) {
    exists i :: 0 <= i < |rows| && p(rows[i])
  }

  function Claimed(b: Books, affiliate: string, gross: int, key: Option<string>, fee: Percent): Books
    requires IsPercent(fee)
  {
    var id := |b.payouts|;
    var split := CalculatePayoutBreakdown(gross, fee);
    Books(b.conversions,
          Updated(b.commissions, PayableTo(affiliate),
                  (c: Commission) => c.(status := IncludedInPayout, payout := Some(id))),
          Updated(b.adjustments, UnsettledOf(affiliate), (a: Adjustment) => a.(settledPayout := Some(id))),
          b.payouts + [Payout(affiliate, split.gross, split.fee, split.net, Requested, key)],
          b.events + [PayoutEvent(id, Requested, Requested)])
  }

  /** The books after the request, and the payout the affiliate is shown. */
  function RequestPayout(b: Books, affiliate: string, key: Option<string>, fee: Percent)
    : Result<(Books, Id), LedgerError>
    requires IsPercent(fee)
  {
    match FirstPayout(WithKey(affiliate, key), b.payouts)
    case Some(existing) => Ok((b, existing))
    case None =>
      match FirstPayout(OpenFor(affiliate), b.payouts)
      case Some(open) => Err(PayoutInFlight(open))
      case None =>
        if !Exists(PayableTo(affiliate), b.commissions) then Err(NothingApproved)
        else
          var gross := Max(0, Total(AmountIf(PayableTo(affiliate)), b.commissions) +
                              Total(AdjustmentIf(UnsettledOf(affiliate)), b.adjustments));
          if gross < MINIMUM_PAYOUT then Err(BelowMinimum)
          else Ok((Claimed(b, affiliate, gross, key, fee), |b.payouts|))
  }

  /** The transition table of packages/analytics/src/payout-lifecycle.ts. */
  predicate CanTransition(from: PayoutStatus, to: PayoutStatus) {
    match from
    case Requested => to == Processing || to == Failed || to == Cancelled
    case Processing => to == Settled || to == Failed
    case Settled => false
    case Failed => to == Processing
    case Cancelled => false
  }

  predicate Releases(to: PayoutStatus) {
    to == Failed || to == Cancelled
  }

  function InPayout(payout: Id): Commission -> bool {
    (c: Commission) => c.payout == Some(payout) && c.status == IncludedInPayout
  }

  /**
   * What `transition` has decided before its transaction begins. `from` is the status it read then;
   * the transaction writes it down but does not look again.
   */
  datatype Decision = Decision(payout: Id, from: PayoutStatus, to: PayoutStatus)

  function Decide(b: Books, payout: Id, to: PayoutStatus, hasReason: bool): Result<Decision, LedgerError> {
    if payout >= |b.payouts| then Err(NotFound)
    else if !CanTransition(b.payouts[payout].status, to) then Err(InvalidTransition)
    else if to == Failed && !hasReason then Err(ReasonRequired)
    else Ok(Decision(payout, b.payouts[payout].status, to))
  }

  /** The transaction of `transition`. */
  function Committed(b: Books, d: Decision): Books
    requires d.payout < |b.payouts|
  {
    b.(payouts := b.payouts[d.payout := b.payouts[d.payout].(status := d.to)],
       commissions :=
         if d.to == Settled then Updated(b.commissions, InPayout(d.payout), (c: Commission) => c.(status := Paid))
         else if Releases(d.to) then
           Updated(b.commissions, InPayout(d.payout), (c: Commission) => c.(status := Payable, payout := None))
         else b.commissions,
       events := b.events + [PayoutEvent(d.payout, d.from, d.to)])
  }

  /** A decision that is committed before anything else happens. */
  function Moved(b: Books, payout: Id, to: PayoutStatus): Books
    requires payout < |b.payouts|
  {
    Committed(b, Decision(payout, b.payouts[payout].status, to))
  }

  function Transition(b: Books, payout: Id, to: PayoutStatus, hasReason: bool): Result<Books, LedgerError> {
    match Decide(b, payout, to, hasReason)
    case Err(e) => Err(e)
    case Ok(_) => if payout < |b.payouts| then Ok(Moved(b, payout, to)) else Err(NotFound)
  }

  // ----- the database

  class LedgerDb {
    var conversions: seq<Conversion>
    var commissions: seq<Commission>
    var adjustments: seq<Adjustment>
    var payouts: seq<Payout>
    var events: seq<PayoutEvent>

    ghost function View(): Books
      reads this
    {
      Books(conversions, commissions, adjustments, payouts, events)
    }

    constructor ()
      ensures View() == EMPTY_BOOKS
    {
      conversions, commissions, adjustments, payouts, events := [], [], [], [], [];
    }

    method ReportSale(affiliate: string, value: nat, commission: nat, lockExpiresAt: Time) returns (conversion: Id)
      modifies this
      ensures View() == Report(old(View()), affiliate, value, commission, lockExpiresAt)
      ensures conversion == |old(conversions)|
    {
      conversion := |conversions|;
      conversions := conversions + [Conversion(affiliate, value, commission, Pending, None)];
      commissions := commissions + [Commission(affiliate, conversion, commission, Locked, lockExpiresAt, None, None)];
    }

    method ReviewConversion(conversion: Id, approve: bool, now: Time) returns (error: Option<LedgerError>)
      modifies this
      ensures match Review(old(View()), conversion, approve, now)
              case Ok(b) => error == None && View() == b
              case Err(e) => error == Some(e) && View() == old(View())
    {
      if conversion >= |conversions| { return Some(NotFound); }
      var conv := conversions[conversion];
      if conv.status != Pending { return Some(AlreadyReviewed); }
      conversions := conversions[conversion :=
        if approve then conv.(status := Approved, approvedAt := Some(now)) else conv.(status := Rejected)];
      if approve {
        commissions := Updated(commissions, (c: Commission) => c.conversion == conversion && c.lockExpiresAt <= now,
                               (c: Commission) => c.(status := Payable, approvedAt := Some(now)));
      } else {
        commissions := Updated(commissions, (c: Commission) => c.conversion == conversion,
                               (c: Commission) => c.(status := Refused));
      }
      return None;
    }

    method FindFirstCommission(conversion: Id) returns (found: Option<Id>)
      ensures found == FindCommission(commissions, conversion)
      ensures found.Some? ==> found.value < |commissions| && commissions[found.value].conversion == conversion
    {
      for i := 0 to |commissions|
        invariant FindCommission(commissions[..i], conversion) == None
      {
        assert commissions[..i + 1][..i] == commissions[..i];
        if commissions[i].conversion == conversion {
          FirstFoundStays(commissions, i + 1, conversion);
          return Some(i);
        }
      }
      assert commissions[..|commissions|] == commissions;
      return None;
    }

    method ReverseConversion(conversion: Id, refundAmount: Option<int>) returns (error: Option<LedgerError>)
      modifies this
      ensures match Reverse(old(View()), conversion, refundAmount)
              case Ok(b) => error == None && View() == b
              case Err(e) => error == Some(e) && View() == old(View())
    {
      if conversion >= |conversions| { return Some(NotFound); }
      var conv := conversions[conversion];
      if conv.status != Approved { return Some(NotApproved); }
      var refund := if refundAmount.Some? then refundAmount.value else conv.value;
      var result := CalculateRefund(conv.value, conv.commissionAmount, refund);
      if result.Err? { return Some(BadRefund(result.error)); }
      var outcome := result.value;
      var found := FindFirstCommission(conversion);
      if found == None { return Some(NotFound); }
      var com := commissions[found.value];
      if com.status == IncludedInPayout { return Some(CommissionInPayout); }

      conversions := conversions[conversion :=
        if outcome.isFullRefund then conv.(status := Rejected)
        else conv.(value := outcome.remainingValue, commissionAmount := outcome.remainingCommission)];
      if com.status == Paid {
        adjustments := adjustments + [Adjustment(conv.affiliate, -outcome.clawbackAmount, conversion, None)];
      } else if outcome.isFullRefund {
        commissions := commissions[found.value := com.(status := ClawedBack)];
      } else {
        commissions := commissions[found.value := com.(amount := outcome.remainingCommission)];
      }
      return None;
    }

    method DecideBlocked(conversion: Id) returns (error: Option<LedgerError>)
      modifies this
      ensures match BlockFraud(old(View()), conversion)
              case Ok(b) => error == None && View() == b
              case Err(e) => error == Some(e) && View() == old(View())
    {
      if conversion >= |conversions| { return Some(NotFound); }
      conversions := conversions[conversion := conversions[conversion].(status := Rejected)];
      commissions := Updated(commissions, (c: Commission) => c.conversion == conversion && c.status == Locked,
                             (c: Commission) => c.(status := ClawedBack));
      return None;
    }

    /** `expired` is what the query returned: at most LOCK_BATCH different expired locks, in any order. */
    method PromoteLocks(expired: seq<Id>, now: Time) returns (promoted: nat)
      requires |expired| <= LOCK_BATCH && forall j, k :: 0 <= j < k < |expired| ==> expired[j] != expired[k]
      requires forall k :: 0 <= k < |expired| ==>
                 expired[k] < |commissions| && IsExpiredLock(commissions[expired[k]], now)
      modifies `commissions
      ensures View() == PromoteExpiredLocks(old(View()), expired, now)
      ensures promoted == |Filter(PromotableIn(old(View()), now), expired)|
    {
      ghost var b := View();
      var toApprove: seq<Id> := [];
      for k := 0 to |expired|
        invariant View() == b
        invariant toApprove == Filter(PromotableIn(b, now), expired[..k])
        invariant forall i :: i in toApprove <==> i in expired[..k] && IsPromotable(b, b.commissions[i], now)
      {
        assert expired[..k + 1] == expired[..k] + [expired[k]];
        FilterConcat(PromotableIn(b, now), expired[..k], [expired[k]]);
        assert [expired[k]][1..] == [];
        var com := commissions[expired[k]];
        if com.conversion < |conversions| && conversions[com.conversion].status == Approved {
          toApprove := toApprove + [expired[k]];
        }
      }
      assert expired[..|expired|] == expired;
      promoted := |toApprove|;
      var before := commissions;
      commissions := seq(|before|, i requires 0 <= i < |before| =>
        if i in toApprove then before[i].(status := Payable, approvedAt := Some(now)) else before[i]);
    }

    method SumPayable(affiliate: string) returns (anyPayable: bool, total: int)
      ensures anyPayable == Exists(PayableTo(affiliate), commissions)
      ensures total == Total(AmountIf(PayableTo(affiliate)), commissions)
    {
      anyPayable, total := false, 0;
      for i := 0 to |commissions|
        invariant anyPayable == Exists(PayableTo(affiliate), commissions[..i])
        invariant total == Total(AmountIf(PayableTo(affiliate)), commissions[..i])
      {
        var upTo := commissions[..i + 1];
        assert upTo[..i] == commissions[..i];
        if commissions[i].affiliate == affiliate && commissions[i].status == Payable {
          assert PayableTo(affiliate)(upTo[i]);
          anyPayable, total := true, total + commissions[i].amount;
        } else if Exists(PayableTo(affiliate), commissions[..i]) {
          var j :| 0 <= j < i && PayableTo(affiliate)(commissions[..i][j]);
          assert PayableTo(affiliate)(upTo[j]);
        } else if Exists(PayableTo(affiliate), upTo) {
          var j :| 0 <= j <= i && PayableTo(affiliate)(upTo[j]);
          assert j < i && PayableTo(affiliate)(commissions[..i][j]);
        }
      }
      assert commissions[..|commissions|] == commissions;
    }

    method SumUnsettled(affiliate: string) returns (total: int)
      ensures total == Total(AdjustmentIf(UnsettledOf(affiliate)), adjustments)
    {
      total := 0;
      for i := 0 to |adjustments|
        invariant total == Total(AdjustmentIf(UnsettledOf(affiliate)), adjustments[..i])
      {
        assert adjustments[..i + 1][..i] == adjustments[..i];
        if adjustments[i].affiliate == affiliate && adjustments[i].settledPayout == None {
          total := total + adjustments[i].amount;
        }
      }
      assert adjustments[..|adjustments|] == adjustments;
    }

    method FindPayout(p: Payout -> bool) returns (found: Option<Id>)
      ensures found == FirstPayout(p, payouts)
    {
      for i := 0 to |payouts|
        invariant FirstPayout(p, payouts[..i]) == None
      {
        assert payouts[..i + 1][..i] == payouts[..i];
        if p(payouts[i]) {
          FirstPayoutStays(p, payouts, i + 1);
          return Some(i);
        }
      }
      assert payouts[..|payouts|] == payouts;
      return None;
    }

    method RequestPayoutFor(affiliate: string, key: Option<string>, fee: Percent)
      returns (result: Result<Id, LedgerError>)
      requires IsPercent(fee)
      modifies this
      ensures match RequestPayout(old(View()), affiliate, key, fee)
              case Ok((b, id)) => result == Ok(id) && View() == b
              case Err(e) => result == Err(e) && View() == old(View())
    {
      var existing := FindPayout(WithKey(affiliate, key));
      if existing.Some? { return Ok(existing.value); }
      var open := FindPayout(OpenFor(affiliate));
      if open.Some? { return Err(PayoutInFlight(open.value)); }
      var anyPayable, commissionTotal := SumPayable(affiliate);
      if !anyPayable { return Err(NothingApproved); }
      var adjustmentTotal := SumUnsettled(affiliate);
      var gross := Max(0, commissionTotal + adjustmentTotal);
      if gross < MINIMUM_PAYOUT { return Err(BelowMinimum); }

      var id := |payouts|;
      var split := CalculatePayoutBreakdown(gross, fee);
      payouts := payouts + [Payout(affiliate, split.gross, split.fee, split.net, Requested, key)];
      commissions := Updated(commissions, PayableTo(affiliate),
                             (c: Commission) => c.(status := IncludedInPayout, payout := Some(id)));
      adjustments := Updated(adjustments, UnsettledOf(affiliate), (a: Adjustment) => a.(settledPayout := Some(id)));
      events := events + [PayoutEvent(id, Requested, Requested)];
      return Ok(id);
    }

    /** The checks of `transition`, under no lock and before its transaction. */
    method DecideTransition(payout: Id, to: PayoutStatus, hasReason: bool)
      returns (result: Result<Decision, LedgerError>)
      ensures result == Decide(View(), payout, to, hasReason)
      ensures result.Ok? ==> payout < |payouts| && result.value == Decision(payout, payouts[payout].status, to)
    {
      if payout >= |payouts| { return Err(NotFound); }
      var from := payouts[payout].status;
      if !CanTransition(from, to) { return Err(InvalidTransition); }
      if to == Failed && !hasReason { return Err(ReasonRequired); }
      return Ok(Decision(payout, from, to));
    }

    /** The transaction of `transition`, whatever has happened since the decision. */
    method CommitDecision(d: Decision)
      requires d.payout < |payouts|
      modifies this
      ensures View() == Committed(old(View()), d)
    {
      payouts := payouts[d.payout := payouts[d.payout].(status := d.to)];
      if d.to == Settled {
        commissions := Updated(commissions, InPayout(d.payout), (c: Commission) => c.(status := Paid));
      }
      if Releases(d.to) {
        commissions :=
          Updated(commissions, InPayout(d.payout), (c: Commission) => c.(status := Payable, payout := None));
      }
      events := events + [PayoutEvent(d.payout, d.from, d.to)];
    }

    /** `transition`, uninterrupted. */
    method TransitionPayout(payout: Id, to: PayoutStatus, hasReason: bool) returns (error: Option<LedgerError>)
      modifies this
      ensures match Transition(old(View()), payout, to, hasReason)
              case Ok(b) => error == None && View() == b
              case Err(e) => error == Some(e) && View() == old(View())
    {
      var decided := DecideTransition(payout, to, hasReason);
      if decided.Err? { return Some(decided.error); }
      CommitDecision(decided.value);
      return None;
    }
  }

  lemma {:induction false} FirstFoundStays(commissions: seq<Commission>, n: nat, conversion: Id)
    requires n <= |commissions| && FindCommission(commissions[..n], conversion).Some?
    ensures FindCommission(commissions, conversion) == FindCommission(commissions[..n], conversion)
    decreases |commissions| - n
  {
    if n == |commissions| {
      assert commissions[..n] == commissions;
    } else {
      assert commissions[..n + 1][..n] == commissions[..n];
      FirstFoundStays(commissions, n + 1, conversion);
    }
  }

  lemma {:induction false} FirstPayoutStays(p: Payout -> bool, payouts: seq<Payout>, n: nat)
    requires n <= |payouts| && FirstPayout(p, payouts[..n]).Some?
    ensures FirstPayout(p, payouts) == FirstPayout(p, payouts[..n])
    decreases |payouts| - n
  {
    if n == |payouts| {
      assert payouts[..n] == payouts;
    } else {
      assert payouts[..n + 1][..n] == payouts[..n];
      FirstPayoutStays(p, payouts, n + 1);
    }
  }
}
