/**
 * Safety of the ledger over every run: what a commission's status says about its payout, what a
 * payout's amount is made of, and that no adjustment is settled twice.
 */
module LedgerPayouts {
  import opened Prelude
  import opened Money
  import opened Ledger

  // ----- runs

  datatype Step =
    | SaleReported(affiliate: string, value: nat, commission: nat, lockExpiresAt: Time)
    | SaleImported(affiliate: string, value: nat, commission: nat)
    | Reviewed(conversion: Id, approve: bool, now: Time)
    | Refunded(conversion: Id, refundAmount: Option<int>)
    | FraudBlocked(conversion: Id)
    | LocksExpired(picked: seq<Id>, now: Time)
    | PayoutRequested(affiliate: string, key: Option<string>, fee: Percent)
    | PayoutMoved(payout: Id, to: PayoutStatus, hasReason: bool)

  function OrSame(b: Books, result: Result<Books, LedgerError>): Books {
    match result case Ok(b') => b' case Err(_) => b
  }

  /** One transaction. A refused one leaves the books as they were. */
  function Applied(b: Books, step: Step): Books {
    match step
    case SaleReported(affiliate, value, commission, lock) => Report(b, affiliate, value, commission, lock)
    case SaleImported(affiliate, value, commission) => ReportImported(b, affiliate, value, commission)
    case Reviewed(conversion, approve, now) => OrSame(b, Review(b, conversion, approve, now))
    case Refunded(conversion, refund) => OrSame(b, Reverse(b, conversion, refund))
    case FraudBlocked(conversion) => OrSame(b, BlockFraud(b, conversion))
    case LocksExpired(picked, now) => PromoteExpiredLocks(b, picked, now)
    case PayoutRequested(affiliate, key, fee) =>
      if !IsPercent(fee) then b
      else (match RequestPayout(b, affiliate, key, fee) case Ok((b', _)) => b' case Err(_) => b)
    case PayoutMoved(payout, to, hasReason) => OrSame(b, Transition(b, payout, to, hasReason))
  }

  function Run(b: Books, steps: seq<Step>): Books
    decreases |steps|
  {
    if steps == [] then b else Run(Applied(b, steps[0]), steps[1..])
  }

  // ----- sums

  lemma {:induction false} TotalFrame<T>(f: T -> int, s: seq<T>, g: T -> int, t: seq<T>)
    requires |s| <= |t|
    requires forall i :: 0 <= i < |s| ==> f(s[i]) == g(t[i])
    requires forall i :: |s| <= i < |t| ==> g(t[i]) == 0
    ensures Total(f, s) == Total(g, t)
    decreases |t|
  {
    if |t| > |s| {
      TotalFrame(f, s, g, t[..|t| - 1]);
    } else if t != [] {
      TotalFrame(f, s[..|s| - 1], g, t[..|t| - 1]);
    }
  }

  lemma {:induction false} TotalAtMostZero<T>(f: T -> int, s: seq<T>)
    requires forall i :: 0 <= i < |s| ==> f(s[i]) <= 0
    ensures Total(f, s) <= 0
    ensures (forall i :: 0 <= i < |s| ==> f(s[i]) == 0) ==> Total(f, s) == 0
  {
    if s != [] { TotalAtMostZero(f, s[..|s| - 1]); }
  }

  /** What of a commission counts towards a payout. */
  function ShareOf(payout: Id): Commission -> int {
    (c: Commission) => if c.payout == Some(payout) then c.amount else 0
  }

  function SettledIn(payout: Id): Adjustment -> int {
    (a: Adjustment) => if a.settledPayout == Some(payout) then a.amount else 0
  }

  // ----- the invariant

  /** The payout has failed or been cancelled at some time. */
  ghost predicate EverReleased(b: Books, payout: Id) {
    exists k :: 0 <= k < |b.events| && b.events[k].payout == payout && Releases(b.events[k].to)
  }

  predicate WasPayable(c: Commission) {
    c.status == Payable || c.status == IncludedInPayout || c.status == Paid
  }

  /**
   * A commission on its way to or in a payout was approved, and its lock had run out by then; until it
   * is paid it is for what its conversion earns.
   */
  predicate History(b: Books, c: Commission) {
    && c.conversion < |b.conversions|
    && var conv := b.conversions[c.conversion];
    && c.affiliate == conv.affiliate
    && (conv.status == Pending ==> c.status == Locked)
    && (conv.status != Rejected && c.status != Paid ==> c.amount == conv.commissionAmount)
    && (WasPayable(c) ==> conv.approvedAt.Some? && c.approvedAt.Some? && c.lockExpiresAt <= c.approvedAt.value)
  }

  /** A commission is included only under an open payout and paid only under a settled one. */
  ghost predicate Attached(b: Books, c: Commission) {
    && (c.payout.Some? <==> c.status == IncludedInPayout || c.status == Paid)
    && (c.payout.Some? ==>
          && c.payout.value < |b.payouts|
          && var p := b.payouts[c.payout.value];
          && p.affiliate == c.affiliate
          && (c.status == IncludedInPayout ==> IsOpen(p.status))
          && (c.status == Paid ==> p.status == Settled)
          && !EverReleased(b, c.payout.value))
  }

  /** A payout's amount is its commissions plus the adjustments settled in it, unless it was ever released. */
  ghost predicate Explained(b: Books, p: Id)
    requires p < |b.payouts|
  {
    && b.payouts[p].fee + b.payouts[p].net == b.payouts[p].amount >= MINIMUM_PAYOUT
    && (Releases(b.payouts[p].status) ==> EverReleased(b, p))
    && (!EverReleased(b, p) ==>
          b.payouts[p].amount == Total(ShareOf(p), b.commissions) + Total(SettledIn(p), b.adjustments))
  }

  /** An adjustment takes back from the affiliate of its conversion, and is settled in a payout of that affiliate. */
  predicate Clawback(b: Books, a: Adjustment) {
    && a.amount <= 0 && a.conversion < |b.conversions|
    && a.affiliate == b.conversions[a.conversion].affiliate
    && (a.settledPayout.Some? ==>
          a.settledPayout.value < |b.payouts| && b.payouts[a.settledPayout.value].affiliate == a.affiliate)
  }

  ghost predicate Sound(b: Books) {
    && (forall i :: 0 <= i < |b.commissions| ==> History(b, b.commissions[i]))
    && (forall i :: 0 <= i < |b.commissions| ==> Attached(b, b.commissions[i]))
    && (forall i, j :: 0 <= i < j < |b.commissions| ==> b.commissions[i].conversion != b.commissions[j].conversion)
    && (forall v :: 0 <= v < |b.conversions| ==>
          && b.conversions[v].commissionAmount >= 0
          && (b.conversions[v].status == Approved ==> b.conversions[v].approvedAt.Some?))
    && (forall k :: 0 <= k < |b.adjustments| ==> Clawback(b, b.adjustments[k]))
    && (forall p :: 0 <= p < |b.payouts| ==> Explained(b, p))
    && (forall k :: 0 <= k < |b.events| ==> b.events[k].payout < |b.payouts|)
  }

  // ----- steps that leave payouts alone

  /** Payouts and what is attached to them are untouched; new rows are attached to nothing. */
  ghost predicate Quiet(b: Books, b': Books) {
    && b'.payouts == b.payouts && b'.events == b.events
    && |b.commissions| <= |b'.commissions|
    && (forall i :: 0 <= i < |b.commissions| ==>
          && b'.commissions[i].payout == b.commissions[i].payout
          && b'.commissions[i].affiliate == b.commissions[i].affiliate
          && (b.commissions[i].payout.Some? ==> b'.commissions[i] == b.commissions[i])
          && (b.commissions[i].payout.None? ==>
                b'.commissions[i].status != IncludedInPayout && b'.commissions[i].status != Paid))
    && (forall i :: |b.commissions| <= i < |b'.commissions| ==>
          b'.commissions[i].payout == None && b'.commissions[i].status == Locked)
    && |b.adjustments| <= |b'.adjustments|
    && b'.adjustments[..|b.adjustments|] == b.adjustments
    && (forall k :: |b.adjustments| <= k < |b'.adjustments| ==> b'.adjustments[k].settledPayout == None)
  }

  lemma QuietKeepsPayouts(b: Books, b': Books)
    requires Sound(b) && Quiet(b, b')
    ensures forall i :: 0 <= i < |b'.commissions| ==> Attached(b', b'.commissions[i])
    ensures forall p :: 0 <= p < |b'.payouts| ==> Explained(b', p)
  {
    assert forall p :: EverReleased(b', p) <==> EverReleased(b, p);
    forall i | 0 <= i < |b'.commissions|
      ensures Attached(b', b'.commissions[i])
    {
      if i < |b.commissions| { assert Attached(b, b.commissions[i]); }
    }
    forall p | 0 <= p < |b'.payouts|
      ensures Explained(b', p)
    {
      assert Explained(b, p);
      TotalFrame(ShareOf(p), b.commissions, ShareOf(p), b'.commissions);
      assert forall k :: 0 <= k < |b.adjustments| ==> b'.adjustments[k] == b'.adjustments[..|b.adjustments|][k];
      TotalFrame(SettledIn(p), b.adjustments, SettledIn(p), b'.adjustments);
    }
  }

  lemma ReportKeeps(b: Books, affiliate: string, value: nat, commission: nat, lock: Time)
    requires Sound(b)
    ensures Sound(Report(b, affiliate, value, commission, lock))
    ensures Sound(ReportImported(b, affiliate, value, commission))
  {
    var b1, b2 := Report(b, affiliate, value, commission, lock), ReportImported(b, affiliate, value, commission);
    QuietKeepsPayouts(b, b1);
    QuietKeepsPayouts(b, b2);
    forall i | 0 <= i < |b.commissions|
      ensures History(b1, b1.commissions[i]) && History(b2, b2.commissions[i])
    {
      assert History(b, b.commissions[i]);
    }
    forall k | 0 <= k < |b.adjustments|
      ensures Clawback(b1, b1.adjustments[k]) && Clawback(b2, b2.adjustments[k])
    {
      assert Clawback(b, b.adjustments[k]);
    }
  }

  lemma ReviewKeeps(b: Books, conversion: Id, approve: bool, now: Time)
    requires Sound(b) && Review(b, conversion, approve, now).Ok?
    ensures Sound(Review(b, conversion, approve, now).value)
  {
    var b' := Review(b, conversion, approve, now).value;
    forall i | 0 <= i < |b.commissions|
      ensures History(b', b'.commissions[i])
      ensures b'.commissions[i].payout == b.commissions[i].payout
      ensures b.commissions[i].payout.Some? ==> b'.commissions[i] == b.commissions[i]
      ensures b.commissions[i].payout.None? ==>
                b'.commissions[i].status != IncludedInPayout && b'.commissions[i].status != Paid
    {
      assert History(b, b.commissions[i]) && Attached(b, b.commissions[i]);
    }
    assert Quiet(b, b');
    QuietKeepsPayouts(b, b');
    assert forall k :: 0 <= k < |b.adjustments| ==> Clawback(b, b.adjustments[k]) && Clawback(b', b'.adjustments[k]);
  }

  lemma {:induction false} FoundIsThere(commissions: seq<Commission>, conversion: Id)
    ensures match FindCommission(commissions, conversion)
            case Some(i) => i < |commissions| && commissions[i].conversion == conversion
            case None => forall i :: 0 <= i < |commissions| ==> commissions[i].conversion != conversion
  {
    if commissions != [] { FoundIsThere(commissions[..|commissions| - 1], conversion); }
  }

  function RefundOf(conv: Conversion, refund: Option<int>): Result<RefundOutcome, RefundError> {
    CalculateRefund(conv.value, conv.commissionAmount, if refund.Some? then refund.value else conv.value)
  }

  /** A reversal that goes through splits the commission it finds. */
  lemma GrantedReversal(b: Books, conversion: Id, refund: Option<int>, i: Id, o: RefundOutcome)
    requires Sound(b) && Reverse(b, conversion, refund).Ok? && conversion < |b.conversions|
    requires FindCommission(b.commissions, conversion) == Some(i)
    requires RefundOf(b.conversions[conversion], refund) == Ok(o)
    ensures b.conversions[conversion].status == Approved
    ensures i < |b.commissions| && b.commissions[i].conversion == conversion &&
            b.commissions[i].status != IncludedInPayout
    ensures Reverse(b, conversion, refund).value == Reversed(b, conversion, i, o)
    ensures var amount := b.conversions[conversion].commissionAmount;
            && 0 <= o.remainingCommission <= amount && o.remainingCommission + o.clawbackAmount == amount
            && (o.isFullRefund ==> o.clawbackAmount == amount)
  {
    var conv := b.conversions[conversion];
    FoundIsThere(b.commissions, conversion);
    RefundSplits(conv.value, conv.commissionAmount, if refund.Some? then refund.value else conv.value);
  }

  lemma ReversedKeeps(b: Books, conversion: Id, i: Id, o: RefundOutcome)
    requires Sound(b) && conversion < |b.conversions| && b.conversions[conversion].status == Approved
    requires i < |b.commissions| && b.commissions[i].conversion == conversion &&
             b.commissions[i].status != IncludedInPayout
    requires 0 <= o.remainingCommission && 0 <= o.clawbackAmount
    ensures Sound(Reversed(b, conversion, i, o))
  {
    var b' := Reversed(b, conversion, i, o);
    assert Attached(b, b.commissions[i]);
    forall j | 0 <= j < |b.commissions|
      ensures History(b', b'.commissions[j])
    {
      assert History(b, b.commissions[j]);
    }
    assert Quiet(b, b');
    QuietKeepsPayouts(b, b');
    forall k | 0 <= k < |b'.adjustments|
      ensures Clawback(b', b'.adjustments[k])
    {
      if k < |b.adjustments| { assert Clawback(b, b.adjustments[k]); }
    }
  }

  lemma ReverseKeeps(b: Books, conversion: Id, refund: Option<int>)
    requires Sound(b) && Reverse(b, conversion, refund).Ok?
    ensures Sound(Reverse(b, conversion, refund).value)
  {
    var i := FindCommission(b.commissions, conversion).value;
    var o := RefundOf(b.conversions[conversion], refund).value;
    GrantedReversal(b, conversion, refund, i, o);
    ReversedKeeps(b, conversion, i, o);
  }

  lemma BlockKeeps(b: Books, conversion: Id)
    requires Sound(b) && BlockFraud(b, conversion).Ok?
    ensures Sound(BlockFraud(b, conversion).value)
  {
    var b' := BlockFraud(b, conversion).value;
    forall i | 0 <= i < |b.commissions|
      ensures History(b', b'.commissions[i])
      ensures b.commissions[i].payout.Some? ==> b'.commissions[i] == b.commissions[i]
      ensures b.commissions[i].payout.None? ==>
                b'.commissions[i].status != IncludedInPayout && b'.commissions[i].status != Paid
    {
      assert History(b, b.commissions[i]) && Attached(b, b.commissions[i]);
    }
    assert Quiet(b, b');
    QuietKeepsPayouts(b, b');
    assert forall k :: 0 <= k < |b.adjustments| ==> Clawback(b, b.adjustments[k]) && Clawback(b', b'.adjustments[k]);
  }

  lemma PromoteKeeps(b: Books, picked: seq<Id>, now: Time)
    requires Sound(b)
    ensures Sound(PromoteExpiredLocks(b, picked, now))
  {
    var b' := PromoteExpiredLocks(b, picked, now);
    forall i | 0 <= i < |b.commissions|
      ensures History(b', b'.commissions[i])
      ensures b.commissions[i].payout.Some? ==> b'.commissions[i] == b.commissions[i]
      ensures b.commissions[i].payout.None? ==>
                b'.commissions[i].status != IncludedInPayout && b'.commissions[i].status != Paid
    {
      assert History(b, b.commissions[i]) && Attached(b, b.commissions[i]);
    }
    assert Quiet(b, b');
    QuietKeepsPayouts(b, b');
    assert forall k :: 0 <= k < |b.adjustments| ==> Clawback(b, b.adjustments[k]) && Clawback(b', b'.adjustments[k]);
  }

  // ----- a payout is requested

  lemma {:induction false} NoneFound(p: Payout -> bool, payouts: seq<Payout>)
    ensures match FirstPayout(p, payouts)
            case Some(i) => i < |payouts| && p(payouts[i])
            case None => forall i :: 0 <= i < |payouts| ==> !p(payouts[i])
  {
    if payouts != [] { NoneFound(p, payouts[..|payouts| - 1]); }
  }

  /** What the new payout is attached to sums to what was totalled up for it. */
  lemma ClaimIsExplained(b: Books, affiliate: string, gross: int, key: Option<string>, fee: Percent)
    requires Sound(b) && IsPercent(fee)
    requires gross == Total(AmountIf(PayableTo(affiliate)), b.commissions) +
                      Total(AdjustmentIf(UnsettledOf(affiliate)), b.adjustments)
    requires gross >= MINIMUM_PAYOUT
    ensures Explained(Claimed(b, affiliate, gross, key, fee), |b.payouts|)
  {
    var id, b' := |b.payouts|, Claimed(b, affiliate, gross, key, fee);
    forall i | 0 <= i < |b.commissions|
      ensures AmountIf(PayableTo(affiliate))(b.commissions[i]) == ShareOf(id)(b'.commissions[i])
    {
      assert Attached(b, b.commissions[i]);
    }
    TotalFrame(AmountIf(PayableTo(affiliate)), b.commissions, ShareOf(id), b'.commissions);
    forall k | 0 <= k < |b.adjustments|
      ensures AdjustmentIf(UnsettledOf(affiliate))(b.adjustments[k]) == SettledIn(id)(b'.adjustments[k])
    {
      assert Clawback(b, b.adjustments[k]);
    }
    TotalFrame(AdjustmentIf(UnsettledOf(affiliate)), b.adjustments, SettledIn(id), b'.adjustments);
  }

  lemma ClaimReleasesNone(b: Books, affiliate: string, gross: int, key: Option<string>, fee: Percent, p: Id)
    requires IsPercent(fee)
    ensures EverReleased(Claimed(b, affiliate, gross, key, fee), p) <==> EverReleased(b, p)
  {
    var b' := Claimed(b, affiliate, gross, key, fee);
    assert b'.events[..|b.events|] == b.events;
    if k :| 0 <= k < |b.events| && b.events[k].payout == p && Releases(b.events[k].to) {
      assert b'.events[k] == b.events[k];
    }
  }

  /** The earlier payouts keep what they have. */
  lemma ClaimKeepsExplained(b: Books, affiliate: string, gross: int, key: Option<string>, fee: Percent, p: Id)
    requires Sound(b) && IsPercent(fee) && p < |b.payouts|
    ensures Explained(Claimed(b, affiliate, gross, key, fee), p)
  {
    var b' := Claimed(b, affiliate, gross, key, fee);
    assert Explained(b, p);
    ClaimReleasesNone(b, affiliate, gross, key, fee, p);
    forall i | 0 <= i < |b.commissions|
      ensures ShareOf(p)(b.commissions[i]) == ShareOf(p)(b'.commissions[i])
    {
      assert Attached(b, b.commissions[i]);
    }
    TotalFrame(ShareOf(p), b.commissions, ShareOf(p), b'.commissions);
    TotalFrame(SettledIn(p), b.adjustments, SettledIn(p), b'.adjustments);
  }

  lemma EachIsExplained(b: Books, affiliate: string, gross: int, key: Option<string>, fee: Percent, p: Id)
    requires Sound(b) && IsPercent(fee) && p <= |b.payouts|
    requires gross == Total(AmountIf(PayableTo(affiliate)), b.commissions) +
                      Total(AdjustmentIf(UnsettledOf(affiliate)), b.adjustments)
    requires gross >= MINIMUM_PAYOUT
    ensures |Claimed(b, affiliate, gross, key, fee).payouts| == |b.payouts| + 1
    ensures Explained(Claimed(b, affiliate, gross, key, fee), p)
  {
    if p < |b.payouts| {
      ClaimKeepsExplained(b, affiliate, gross, key, fee, p);
    } else {
      ClaimIsExplained(b, affiliate, gross, key, fee);
    }
  }

  lemma ClaimKeepsAttached(b: Books, affiliate: string, gross: int, key: Option<string>, fee: Percent, i: nat)
    requires Sound(b) && IsPercent(fee) && i < |b.commissions|
    ensures History(Claimed(b, affiliate, gross, key, fee), Claimed(b, affiliate, gross, key, fee).commissions[i])
    ensures Attached(Claimed(b, affiliate, gross, key, fee), Claimed(b, affiliate, gross, key, fee).commissions[i])
  {
    assert History(b, b.commissions[i]) && Attached(b, b.commissions[i]);
    var p := Claimed(b, affiliate, gross, key, fee).commissions[i].payout;
    if p.Some? { ClaimReleasesNone(b, affiliate, gross, key, fee, p.value); }
  }

  lemma ClaimKeeps(b: Books, affiliate: string, gross: int, key: Option<string>, fee: Percent)
    requires Sound(b) && IsPercent(fee)
    requires gross == Total(AmountIf(PayableTo(affiliate)), b.commissions) +
                      Total(AdjustmentIf(UnsettledOf(affiliate)), b.adjustments)
    requires gross >= MINIMUM_PAYOUT
    ensures Sound(Claimed(b, affiliate, gross, key, fee))
  {
    var b' := Claimed(b, affiliate, gross, key, fee);
    forall p | 0 <= p < |b'.payouts| ensures Explained(b', p) {
      EachIsExplained(b, affiliate, gross, key, fee, p);
    }
    forall i | 0 <= i < |b.commissions|
      ensures History(b', b'.commissions[i]) && Attached(b', b'.commissions[i])
    {
      ClaimKeepsAttached(b, affiliate, gross, key, fee, i);
    }
    forall k | 0 <= k < |b.adjustments|
      ensures Clawback(b', b'.adjustments[k])
    {
      assert Clawback(b, b.adjustments[k]);
    }
  }

  /** A request that is granted claims what was totalled up, or shows an earlier payout. */
  lemma GrantedRequest(b: Books, affiliate: string, key: Option<string>, fee: Percent)
    requires IsPercent(fee) && RequestPayout(b, affiliate, key, fee).Ok?
    ensures var b' := RequestPayout(b, affiliate, key, fee).value.0;
            var total := Total(AmountIf(PayableTo(affiliate)), b.commissions) +
                         Total(AdjustmentIf(UnsettledOf(affiliate)), b.adjustments);
            b' == b || (b' == Claimed(b, affiliate, total, key, fee) && total >= MINIMUM_PAYOUT)
  {
  }

  lemma GrantKeeps(b: Books, affiliate: string, key: Option<string>, fee: Percent, b': Books)
    requires Sound(b) && IsPercent(fee)
    requires var total := Total(AmountIf(PayableTo(affiliate)), b.commissions) +
                          Total(AdjustmentIf(UnsettledOf(affiliate)), b.adjustments);
             b' == b || (b' == Claimed(b, affiliate, total, key, fee) && total >= MINIMUM_PAYOUT)
    ensures Sound(b')
  {
    var total := Total(AmountIf(PayableTo(affiliate)), b.commissions) +
                 Total(AdjustmentIf(UnsettledOf(affiliate)), b.adjustments);
    if b' != b { ClaimKeeps(b, affiliate, total, key, fee); }
  }

  // ----- a payout moves

  ghost predicate HasPaid(b: Books, payout: Id) {
    exists i :: 0 <= i < |b.commissions| && IsPaidIn(b.commissions[i], payout)
  }

  predicate IsPaidIn(c: Commission, payout: Id) {
    c.status == Paid && c.payout == Some(payout)
  }

  lemma CommitReleases(b: Books, d: Decision, p: Id)
    requires d.payout < |b.payouts|
    ensures EverReleased(Committed(b, d), p) <==> EverReleased(b, p) || (p == d.payout && Releases(d.to))
  {
    var b', n := Committed(b, d), |b.events|;
    assert b'.events[n] == PayoutEvent(d.payout, d.from, d.to);
    assert forall k :: 0 <= k < n ==> b'.events[k] == b.events[k];
  }

  lemma CommitKeepsExplained(b: Books, d: Decision, p: Id)
    requires Sound(b) && d.payout < |b.payouts| && p < |b.payouts|
    ensures Explained(Committed(b, d), p)
  {
    var b' := Committed(b, d);
    assert Explained(b, p);
    CommitReleases(b, d, p);
    if !EverReleased(b', p) {
      forall i | 0 <= i < |b.commissions|
        ensures ShareOf(p)(b.commissions[i]) == ShareOf(p)(b'.commissions[i])
      {
        assert Attached(b, b.commissions[i]);
      }
      TotalFrame(ShareOf(p), b.commissions, ShareOf(p), b'.commissions);
    }
  }

  lemma CommitKeepsAttached(b: Books, d: Decision, i: nat)
    requires Sound(b) && d.payout < |b.payouts| && CanTransition(d.from, d.to) && i < |b.commissions|
    ensures History(Committed(b, d), Committed(b, d).commissions[i])
    ensures Attached(Committed(b, d), Committed(b, d).commissions[i]) <==>
            d.to == Settled || !IsPaidIn(b.commissions[i], d.payout)
  {
    var b', c := Committed(b, d), b.commissions[i];
    assert History(b, c) && Attached(b, c);
    if c.payout.Some? {
      CommitReleases(b, d, c.payout.value);
      if c.payout.value == d.payout { assert Explained(b, d.payout); }
    }
  }

  /**
   * Committing a decision keeps the ledger sound if and only if it settles the payout or no
   * commission has been paid in it. If the payout's status is what the decision read, it does.
   */
  lemma CommitIsSound(b: Books, d: Decision)
    requires Sound(b) && d.payout < |b.payouts| && CanTransition(d.from, d.to)
    ensures Sound(Committed(b, d)) <==> d.to == Settled || !HasPaid(b, d.payout)
    ensures HasPaid(b, d.payout) ==> b.payouts[d.payout].status == Settled
    ensures b.payouts[d.payout].status == d.from ==> Sound(Committed(b, d))
  {
    var b' := Committed(b, d);
    forall p | 0 <= p < |b'.payouts| ensures Explained(b', p) {
      CommitKeepsExplained(b, d, p);
    }
    forall i | 0 <= i < |b.commissions|
      ensures History(b', b'.commissions[i])
      ensures Attached(b', b'.commissions[i]) <==> d.to == Settled || !IsPaidIn(b.commissions[i], d.payout)
      ensures IsPaidIn(b.commissions[i], d.payout) ==> b.payouts[d.payout].status == Settled
    {
      CommitKeepsAttached(b, d, i);
      assert Attached(b, b.commissions[i]);
    }
    forall k | 0 <= k < |b.adjustments| ensures Clawback(b', b'.adjustments[k]) {
      assert Clawback(b, b.adjustments[k]);
    }
    if d.to != Settled && HasPaid(b, d.payout) {
      var i :| 0 <= i < |b.commissions| && IsPaidIn(b.commissions[i], d.payout);
      assert !Attached(b', b'.commissions[i]);
    }
  }

  lemma TransitionKeeps(b: Books, payout: Id, to: PayoutStatus, hasReason: bool)
    requires Sound(b) && Transition(b, payout, to, hasReason).Ok?
    ensures Sound(Transition(b, payout, to, hasReason).value)
  {
    CommitIsSound(b, Decision(payout, b.payouts[payout].status, to));
  }

  // ----- every run

  lemma StepKeeps(b: Books, step: Step)
    requires Sound(b)
    ensures Sound(Applied(b, step))
  {
    match step
    case SaleReported(affiliate, value, commission, lock) => ReportKeeps(b, affiliate, value, commission, lock);
    case SaleImported(affiliate, value, commission) => ReportKeeps(b, affiliate, value, commission, 0);
    case Reviewed(conversion, approve, now) =>
      if Review(b, conversion, approve, now).Ok? { ReviewKeeps(b, conversion, approve, now); }
    case Refunded(conversion, refund) =>
      if Reverse(b, conversion, refund).Ok? { ReverseKeeps(b, conversion, refund); }
    case FraudBlocked(conversion) =>
      if BlockFraud(b, conversion).Ok? { BlockKeeps(b, conversion); }
    case LocksExpired(picked, now) => PromoteKeeps(b, picked, now);
    case PayoutRequested(affiliate, key, fee) =>
      if IsPercent(fee) && RequestPayout(b, affiliate, key, fee).Ok? {
        GrantedRequest(b, affiliate, key, fee);
        GrantKeeps(b, affiliate, key, fee, RequestPayout(b, affiliate, key, fee).value.0);
      }
    case PayoutMoved(payout, to, hasReason) =>
      if Transition(b, payout, to, hasReason).Ok? { TransitionKeeps(b, payout, to, hasReason); }
  }

  /**
   * Every ledger that undivided transactions and transitions lead to is sound, whatever is reviewed,
   * refunded, blocked, retried or released.
   */
  lemma {:induction false} EveryRunIsSound(b: Books, steps: seq<Step>)
    requires Sound(b)
    ensures Sound(Run(b, steps))
    decreases |steps|
  {
    if steps != [] {
      StepKeeps(b, steps[0]);
      EveryRunIsSound(Applied(b, steps[0]), steps[1..]);
    }
  }

  /**
   * In every such ledger a payout's amount is explained by what is attached to it if and only
   * if the payout has never failed or been cancelled.
   */
  lemma AmountIsExplained(steps: seq<Step>, p: Id)
    requires p < |Run(EMPTY_BOOKS, steps).payouts|
    ensures var b := Run(EMPTY_BOOKS, steps);
            && b.payouts[p].fee + b.payouts[p].net == b.payouts[p].amount
            && (b.payouts[p].amount == Total(ShareOf(p), b.commissions) + Total(SettledIn(p), b.adjustments) <==>
                !EverReleased(b, p))
  {
    EveryRunIsSound(EMPTY_BOOKS, steps);
    var b := Run(EMPTY_BOOKS, steps);
    assert Explained(b, p);
    if EverReleased(b, p) {
      forall i | 0 <= i < |b.commissions|
        ensures ShareOf(p)(b.commissions[i]) == 0
      {
        assert Attached(b, b.commissions[i]);
      }
      TotalAtMostZero(ShareOf(p), b.commissions);
      forall k | 0 <= k < |b.adjustments|
        ensures SettledIn(p)(b.adjustments[k]) <= 0
      {
        assert Clawback(b, b.adjustments[k]);
      }
      TotalAtMostZero(SettledIn(p), b.adjustments);
    }
  }

  // ----- adjustments

  /** Adjustments only accumulate, and a settled one stays settled in the same payout. */
  predicate AdjustmentsKept(b: Books, b': Books) {
    && |b.adjustments| <= |b'.adjustments|
    && forall k :: 0 <= k < |b.adjustments| ==>
         && b'.adjustments[k].(settledPayout := None) == b.adjustments[k].(settledPayout := None)
         && (b.adjustments[k].settledPayout.Some? ==> b'.adjustments[k] == b.adjustments[k])
  }

  lemma StepKeepsAdjustments(b: Books, step: Step)
    ensures AdjustmentsKept(b, Applied(b, step))
  {
  }

  /** No adjustment is ever settled twice, changed or lost. */
  lemma {:induction false} SettledOnce(b: Books, steps: seq<Step>)
    ensures AdjustmentsKept(b, Run(b, steps))
    decreases |steps|
  {
    if steps != [] {
      StepKeepsAdjustments(b, steps[0]);
      SettledOnce(Applied(b, steps[0]), steps[1..]);
    }
  }
}
