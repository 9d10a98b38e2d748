/**
 * What each transaction of the ledger comes to: which rows it touches and how, when it is refused,
 * and by how much it moves what an affiliate can ask to be paid.
 */
module LedgerOutcomes {
  import opened Prelude
  import opened Money
  import opened Ledger
  import opened LedgerPayouts

  // ----- rows

  /** Nothing but conversion `v` and its commissions is touched. */
  ghost predicate OnlyConversion(b: Books, b': Books, v: Id) {
    && |b'.conversions| == |b.conversions| && |b'.commissions| == |b.commissions|
    && b'.payouts == b.payouts && b'.events == b.events
    && (forall k :: 0 <= k < |b.conversions| && k != v ==> b'.conversions[k] == b.conversions[k])
    && (forall i :: 0 <= i < |b.commissions| && b.commissions[i].conversion != v ==>
          b'.commissions[i] == b.commissions[i])
  }

  /** A reported sale is a pending conversion and its locked commission, for the same affiliate and amount. */
  lemma SaleIsPending(b: Books, affiliate: string, value: nat, commission: nat, lock: Time)
    ensures var b' := Report(b, affiliate, value, commission, lock);
            && |b'.conversions| == |b.conversions| + 1 && b'.conversions[..|b.conversions|] == b.conversions
            && |b'.commissions| == |b.commissions| + 1 && b'.commissions[..|b.commissions|] == b.commissions
            && b'.adjustments == b.adjustments && b'.payouts == b.payouts && b'.events == b.events
            && var conv, c := b'.conversions[|b.conversions|], b'.commissions[|b.commissions|];
            && conv.status == Pending && conv.value == value && conv.approvedAt == None
            && c.conversion == |b.conversions| && c.status == Locked && c.lockExpiresAt == lock && c.payout == None
            && c.affiliate == conv.affiliate == affiliate && c.amount == conv.commissionAmount == commission
    ensures ReportImported(b, affiliate, value, commission) ==
            Report(b, affiliate, value, commission, lock).(commissions := b.commissions)
  {
  }

  /** Only a pending conversion is reviewed, once. Approval frees the commissions whose lock has run out. */
  lemma ReviewOutcome(b: Books, v: Id, approve: bool, now: Time)
    ensures Review(b, v, approve, now).Ok? <==> v < |b.conversions| && b.conversions[v].status == Pending
    ensures Review(b, v, approve, now) == Err(NotFound) <==> v >= |b.conversions|
    ensures Review(b, v, approve, now) == Err(AlreadyReviewed) <==>
            v < |b.conversions| && b.conversions[v].status != Pending
    ensures Review(b, v, approve, now).Ok? ==>
              var b' := Review(b, v, approve, now).value;
              && OnlyConversion(b, b', v) && b'.adjustments == b.adjustments
              && var conv, conv' := b.conversions[v], b'.conversions[v];
              && conv'.(status := Pending, approvedAt := None) == conv.(approvedAt := None)
              && (if approve then conv'.status == Approved && conv'.approvedAt == Some(now)
                  else conv'.status == Rejected && conv'.approvedAt == conv.approvedAt)
              && forall i :: 0 <= i < |b.commissions| && b.commissions[i].conversion == v ==>
                   var c, c' := b.commissions[i], b'.commissions[i];
                   && c'.(status := c.status, approvedAt := c.approvedAt) == c
                   && (if !approve then c'.status == Refused && c'.approvedAt == c.approvedAt
                       else if c.lockExpiresAt <= now then c'.status == Payable && c'.approvedAt == Some(now)
                       else c' == c)
  {
  }

  /** What a refund is turned away for, in this order. */
  lemma RefundIsTurnedAway(b: Books, v: Id, refund: Option<int>)
    ensures var r := Reverse(b, v, refund);
            if v >= |b.conversions| then r == Err(NotFound)
            else if b.conversions[v].status != Approved then r == Err(NotApproved)
            else
              var conv := b.conversions[v];
              var amount := if refund.Some? then refund.value else conv.value;
              if amount <= 0 then r == Err(BadRefund(NotPositive))
              else if amount > conv.value then r == Err(BadRefund(ExceedsOrder))
              else match FindCommission(b.commissions, v)
                   case None => r == Err(NotFound)
                   case Some(i) =>
                     i < |b.commissions| &&
                     if b.commissions[i].status == IncludedInPayout then r == Err(CommissionInPayout) else r.Ok?
  {
    FoundIsThere(b.commissions, v);
  }

  /**
   * A refund takes its amount off the sale, or rejects a sale wholly refunded. Its commission keeps
   * the share of what remains: an unpaid one is reduced or clawed back, a paid one stays and the rest
   * is taken back from the affiliate by an adjustment.
   */
  lemma RefundOutcome(b: Books, v: Id, refund: Option<int>, i: Id, kept: int)
    requires Sound(b) && Reverse(b, v, refund).Ok? && v < |b.conversions|
    requires FindCommission(b.commissions, v) == Some(i)
    requires RefundOf(b.conversions[v], refund).Ok? &&
             kept == RefundOf(b.conversions[v], refund).value.remainingCommission
    ensures i < |b.commissions|
    ensures var b', conv, c := Reverse(b, v, refund).value, b.conversions[v], b.commissions[i];
            var amount := if refund.Some? then refund.value else conv.value;
            && OnlyConversion(b, b', v) && 0 < amount <= conv.value
            && -conv.value <= 2 * (conv.commissionAmount * (conv.value - amount) - kept * conv.value) < conv.value
            && b'.conversions[v] == (if amount == conv.value then conv.(status := Rejected)
                                     else conv.(value := conv.value - amount, commissionAmount := kept))
            && b'.commissions[i] == (if c.status == Paid then c
                                     else if amount == conv.value then c.(status := ClawedBack)
                                     else c.(amount := kept))
            && b'.adjustments == b.adjustments + if c.status != Paid then []
                 else [Adjustment(c.affiliate, kept - conv.commissionAmount, v, None)]
  {
    var o := RefundOf(b.conversions[v], refund).value;
    GrantedReversal(b, v, refund, i, o);
    assert History(b, b.commissions[i]);
    var conv := b.conversions[v];
    RefundSplits(conv.value, conv.commissionAmount, if refund.Some? then refund.value else conv.value);
    forall j | 0 <= j < |b.commissions| && b.commissions[j].conversion != v
      ensures Reverse(b, v, refund).value.commissions[j] == b.commissions[j]
    {
    }
  }

  /** A fraud block rejects the sale whatever its state, and claws back only what is still locked. */
  lemma BlockOutcome(b: Books, v: Id)
    ensures BlockFraud(b, v).Ok? <==> v < |b.conversions|
    ensures BlockFraud(b, v).Err? ==> BlockFraud(b, v) == Err(NotFound)
    ensures v < |b.conversions| ==>
              var b' := BlockFraud(b, v).value;
              && OnlyConversion(b, b', v) && b'.adjustments == b.adjustments
              && b'.conversions[v] == b.conversions[v].(status := Rejected)
              && forall i :: 0 <= i < |b.commissions| && b.commissions[i].conversion == v ==>
                   var c := b.commissions[i];
                   b'.commissions[i] == if c.status == Locked then c.(status := ClawedBack) else c
  {
  }

  /**
   * A picked lock that has run out on an approved sale is payable; every other commission is as it was.
   * What is counted as promoted is exactly what changed.
   */
  lemma PromotionOutcome(b: Books, picked: seq<Id>, now: Time, i: Id)
    requires i < |b.commissions|
    ensures var b', c := PromoteExpiredLocks(b, picked, now), b.commissions[i];
            && b' == b.(commissions := b'.commissions) && |b'.commissions| == |b.commissions|
            && b'.commissions[i] ==
               (if i in picked && c.status == Locked && c.lockExpiresAt <= now && c.conversion < |b.conversions| &&
                   b.conversions[c.conversion].status == Approved
                then c.(status := Payable, approvedAt := Some(now)) else c)
            && (i in picked && PromotableIn(b, now)(i) <==> b'.commissions[i].status != c.status)
  {
  }

  // ----- a payout is requested

  /** What an affiliate can ask to be paid: what is payable, less what is still to be taken back. */
  function Available(b: Books, affiliate: string): int {
    Total(AmountIf(PayableTo(affiliate)), b.commissions) + Total(AdjustmentIf(UnsettledOf(affiliate)), b.adjustments)
  }

  ghost predicate HasPayable(b: Books, affiliate: string) {
    exists i :: 0 <= i < |b.commissions| && b.commissions[i].affiliate == affiliate &&
      b.commissions[i].status == Payable
  }

  /** A payout made under the key, which must not be empty. */
  predicate IsRepeat(p: Payout, affiliate: string, key: Option<string>) {
    key.Some? && key.value != "" && p.affiliate == affiliate && p.idempotencyKey == key
  }

  predicate IsOpenOf(p: Payout, affiliate: string) {
    p.affiliate == affiliate && (p.status == Requested || p.status == Processing)
  }

  ghost predicate Repeats(b: Books, affiliate: string, key: Option<string>) {
    exists q :: 0 <= q < |b.payouts| && IsRepeat(b.payouts[q], affiliate, key)
  }

  ghost predicate HasOpen(b: Books, affiliate: string) {
    exists q :: 0 <= q < |b.payouts| && IsOpenOf(b.payouts[q], affiliate)
  }

  /**
   * A repeated key is answered with an earlier payout; otherwise an open payout, nothing payable, or
   * less than fifty dollars available turns the request away; otherwise it is granted.
   */
  lemma RequestIsAnswered(b: Books, affiliate: string, key: Option<string>, fee: Percent)
    requires IsPercent(fee)
    ensures var r := RequestPayout(b, affiliate, key, fee);
            if Repeats(b, affiliate, key) then
              r.Ok? && r.value.0 == b && r.value.1 < |b.payouts| && IsRepeat(b.payouts[r.value.1], affiliate, key)
            else if HasOpen(b, affiliate) then
              r.Err? && r.error.PayoutInFlight? && r.error.open < |b.payouts| &&
              IsOpenOf(b.payouts[r.error.open], affiliate)
            else if !HasPayable(b, affiliate) then r == Err(NothingApproved)
            else if Available(b, affiliate) < 5000 then r == Err(BelowMinimum)
            else r == Ok((Claimed(b, affiliate, Available(b, affiliate), key, fee), |b.payouts|))
  {
    NoneFound(WithKey(affiliate, key), b.payouts);
    NoneFound(OpenFor(affiliate), b.payouts);
    forall q | 0 <= q < |b.payouts|
      ensures WithKey(affiliate, key)(b.payouts[q]) <==> IsRepeat(b.payouts[q], affiliate, key)
      ensures OpenFor(affiliate)(b.payouts[q]) <==> IsOpenOf(b.payouts[q], affiliate)
    {
    }
    SomePayable(b, affiliate);
  }

  lemma SomePayable(b: Books, affiliate: string)
    ensures HasPayable(b, affiliate) <==> Exists(PayableTo(affiliate), b.commissions)
  {
    if i :| 0 <= i < |b.commissions| && PayableTo(affiliate)(b.commissions[i]) {
      assert b.commissions[i].affiliate == affiliate && b.commissions[i].status == Payable;
    }
    if HasPayable(b, affiliate) {
      var i :| 0 <= i < |b.commissions| && b.commissions[i].affiliate == affiliate &&
               b.commissions[i].status == Payable;
      assert PayableTo(affiliate)(b.commissions[i]);
    }
  }

  /**
   * A granted request is one new payout of the affiliate for all that was available, less the fee at
   * the rate asked for; it takes in exactly the affiliate's payable commissions and unsettled
   * adjustments, and leaves nothing available.
   */
  lemma GrantOutcome(b: Books, affiliate: string, gross: int, key: Option<string>, fee: Percent)
    requires Sound(b) && IsPercent(fee) && gross == Available(b, affiliate) >= MINIMUM_PAYOUT
    ensures var b', id := Claimed(b, affiliate, gross, key, fee), |b.payouts|;
            && b'.conversions == b.conversions && |b'.payouts| == id + 1 && b'.payouts[..id] == b.payouts
            && b'.events == b.events + [PayoutEvent(id, Requested, Requested)]
            && var p := b'.payouts[id];
            && p.affiliate == affiliate && p.status == Requested && p.idempotencyKey == key
            && p.amount == gross && IsFee(p.fee, gross, fee) && p.fee + p.net == gross
            && |b'.commissions| == |b.commissions| && |b'.adjustments| == |b.adjustments|
            && (forall i :: 0 <= i < |b.commissions| ==>
                  var c := b.commissions[i];
                  b'.commissions[i] == if c.affiliate == affiliate && c.status == Payable
                                       then c.(status := IncludedInPayout, payout := Some(id)) else c)
            && (forall k :: 0 <= k < |b.adjustments| ==>
                  var a := b.adjustments[k];
                  b'.adjustments[k] == if a.affiliate == affiliate && a.settledPayout == None
                                       then a.(settledPayout := Some(id)) else a)
    ensures Available(Claimed(b, affiliate, gross, key, fee), affiliate) == 0
  {
    BreakdownAddsUp(gross, fee);
    var b' := Claimed(b, affiliate, gross, key, fee);
    forall i | 0 <= i < |b.commissions| ensures AmountIf(PayableTo(affiliate))(b'.commissions[i]) == 0 {
    }
    TotalFrame(AmountIf(PayableTo(affiliate)), [], AmountIf(PayableTo(affiliate)), b'.commissions);
    forall k | 0 <= k < |b.adjustments| ensures AdjustmentIf(UnsettledOf(affiliate))(b'.adjustments[k]) == 0 {
    }
    TotalFrame(AdjustmentIf(UnsettledOf(affiliate)), [], AdjustmentIf(UnsettledOf(affiliate)), b'.adjustments);
  }

  /** The moves of a payout: it is processed, settled, failed or cancelled; a failed one can be retried. */
  const MOVES := {(Requested, Processing), (Requested, Failed), (Requested, Cancelled), (Processing, Settled),
                  (Processing, Failed), (Failed, Processing)}

  /** A decision is turned away for a payout that is not there, a move that is none or a failure without a reason. */
  lemma DecisionOutcome(b: Books, payout: Id, to: PayoutStatus, hasReason: bool)
    ensures forall from, next :: CanTransition(from, next) <==> (from, next) in MOVES
    ensures Decide(b, payout, to, hasReason) ==
            if payout >= |b.payouts| then Err(NotFound)
            else if (b.payouts[payout].status, to) !in MOVES then Err(InvalidTransition)
            else if to == Failed && !hasReason then Err(ReasonRequired)
            else Ok(Decision(payout, b.payouts[payout].status, to))
    ensures match Decide(b, payout, to, hasReason)
            case Err(e) => Transition(b, payout, to, hasReason) == Err(e)
            case Ok(d) => d.payout < |b.payouts| && Transition(b, payout, to, hasReason) == Ok(Committed(b, d))
  {
  }

  /** A committed move: the payout's status, what becomes of the commissions in it, and one event. */
  lemma CommitOutcome(b: Books, d: Decision)
    requires d.payout < |b.payouts|
    ensures var b' := Committed(b, d);
            && b'.conversions == b.conversions && b'.adjustments == b.adjustments
            && b'.payouts == b.payouts[d.payout := b.payouts[d.payout].(status := d.to)]
            && b'.events == b.events + [PayoutEvent(d.payout, d.from, d.to)]
            && |b'.commissions| == |b.commissions|
            && forall i :: 0 <= i < |b.commissions| ==>
                 var c := b.commissions[i];
                 b'.commissions[i] == if c.payout != Some(d.payout) || c.status != IncludedInPayout then c
                                      else if d.to == Settled then c.(status := Paid)
                                      else if d.to == Failed || d.to == Cancelled
                                      then c.(status := Payable, payout := None)
                                      else c
  {
  }

  // ----- what is available moves by what happened

  lemma {:induction false} TotalDiffersAt<T>(f: T -> int, s: seq<T>, t: seq<T>, i: nat)
    requires i < |s| == |t| && forall j :: 0 <= j < |s| && j != i ==> f(s[j]) == f(t[j])
    ensures Total(f, t) == Total(f, s) - f(s[i]) + f(t[i])
  {
    if i == |s| - 1 {
      TotalFrame(f, s[..i], f, t[..i]);
    } else {
      TotalDiffersAt(f, s[..|s| - 1], t[..|t| - 1], i);
    }
  }

  lemma TotalOneMore<T>(f: T -> int, s: seq<T>, x: T)
    ensures Total(f, s + [x]) == Total(f, s) + f(x)
  {
    assert (s + [x])[..|s|] == s;
  }

  /** A commission of a sale is the only one. */
  lemma TheOnlyCommission(b: Books, i: Id, j: Id)
    requires Sound(b) && i < |b.commissions| && j < |b.commissions| && i != j
    ensures b.commissions[i].conversion != b.commissions[j].conversion
  {
  }

  /**
   * A refund of a sale whose commission is payable or paid lowers what its affiliate can ask for by
   * exactly the commission that is taken back; of one still locked, by nothing. Nobody else's moves.
   */
  lemma RefundLowersAvailable(b: Books, v: Id, refund: Option<int>, i: Id, kept: int, affiliate: string)
    requires Sound(b) && Reverse(b, v, refund).Ok? && v < |b.conversions|
    requires FindCommission(b.commissions, v) == Some(i) && i < |b.commissions|
    requires RefundOf(b.conversions[v], refund).Ok? &&
             kept == RefundOf(b.conversions[v], refund).value.remainingCommission
    ensures var c := b.commissions[i];
            Available(Reverse(b, v, refund).value, affiliate) == Available(b, affiliate) -
              if affiliate == c.affiliate && (c.status == Payable || c.status == Paid)
              then b.conversions[v].commissionAmount - kept else 0
  {
    var b', c := Reverse(b, v, refund).value, b.commissions[i];
    RefundOutcome(b, v, refund, i, kept);
    GrantedReversal(b, v, refund, i, RefundOf(b.conversions[v], refund).value);
    assert History(b, c);
    forall j | 0 <= j < |b.commissions| && j != i ensures b'.commissions[j] == b.commissions[j] {
      TheOnlyCommission(b, i, j);
    }
    TotalDiffersAt(AmountIf(PayableTo(affiliate)), b.commissions, b'.commissions, i);
    if c.status == Paid {
      TotalOneMore(AdjustmentIf(UnsettledOf(affiliate)), b.adjustments, b'.adjustments[|b.adjustments|]);
    }
  }

  /**
   * What was taken back for a paid commission is in the affiliate's next payout: once a granted request
   * of that affiliate comes, the adjustment is settled in it.
   */
  lemma ClawbackIsRecovered(b: Books, k: nat, key: Option<string>, fee: Percent)
    requires Sound(b) && IsPercent(fee) && k < |b.adjustments| && b.adjustments[k].settledPayout == None
    requires var affiliate := b.adjustments[k].affiliate;
             !Repeats(b, affiliate, key) && RequestPayout(b, affiliate, key, fee).Ok?
    ensures b.adjustments[k].conversion < |b.conversions|
    ensures b.adjustments[k].affiliate == b.conversions[b.adjustments[k].conversion].affiliate
    ensures RequestPayout(b, b.adjustments[k].affiliate, key, fee).value.0.adjustments[k].settledPayout ==
            Some(|b.payouts|)
  {
    assert Clawback(b, b.adjustments[k]);
    var affiliate := b.adjustments[k].affiliate;
    RequestIsAnswered(b, affiliate, key, fee);
    GrantOutcome(b, affiliate, Available(b, affiliate), key, fee);
  }
}
