/**
 * Money arithmetic: packages/analytics/src/refund-math.ts and packages/analytics/src/payout-math.ts.
 *
 * Amounts are whole cents and quotients are exact, so `round2` is rounding half up to a cent.
 */
module Money {
  import opened Prelude

  /** `n / d` rounded to the nearest integer, halves upwards. */
  function RoundHalfUp(n: int, d: int): (r: int)
    requires d > 0
    ensures -d <= 2 * (n - r * d) < d
  {
    (2 * n + d) / (2 * d)
  }

  // ----- refunds

  datatype RefundOutcome =
    RefundOutcome(remainingValue: int, remainingCommission: int, clawbackAmount: int, isFullRefund: bool)

  datatype RefundError = NotPositive | ExceedsOrder

  function CalculateRefund(originalValue: int, originalCommission: int, refundAmount: int)
    : Result<RefundOutcome, RefundError>
  {
    if refundAmount <= 0 then Err(NotPositive)
    else if refundAmount > originalValue then Err(ExceedsOrder)
    else
      var remainingValue := originalValue - refundAmount;
      var remainingCommission := RoundHalfUp(originalCommission * remainingValue, originalValue);
      Ok(RefundOutcome(remainingValue, remainingCommission, originalCommission - remainingCommission,
                       remainingValue == 0))
  }

  lemma ProductBetween(c: nat, r: nat, v: nat)
    requires r <= v
    ensures 0 <= c * r <= c * v
  {
  }

  lemma SignOfProduct(x: int, v: int)
    requires v > 0
    ensures x * v < 0 <==> x < 0
    ensures x * v <= 0 <==> x <= 0
  {
  }

  lemma Distribute(a: int, b: int, v: int)
    ensures (a + b) * v == a * v + b * v
  {
  }

  /** A quotient within 0 and `c` rounds to within 0 and `c`. */
  lemma RoundWithin(n: int, c: int, v: int)
    requires v > 0 && 0 <= n <= c * v
    ensures 0 <= RoundHalfUp(n, v) <= c
  {
    var r := RoundHalfUp(n, v);
    Distribute(r, -c, v);
    Distribute(r - c, -1, v);
    SignOfProduct(r - c - 1, v);
    Distribute(r, 1, v);
    SignOfProduct(r + 1, v);
  }

  /**
   * A refund splits the commission: what is kept and what is taken back are both within it, and what
   * is kept is the share of the value that remains, to the nearest cent. It is full exactly when
   * nothing remains.
   */
  lemma RefundSplits(value: int, commission: nat, refund: int)
    requires CalculateRefund(value, commission, refund).Ok?
    ensures var o := CalculateRefund(value, commission, refund).value;
            && o.remainingValue == value - refund && (o.isFullRefund <==> refund == value)
            && -value <= 2 * (commission * (value - refund) - o.remainingCommission * value) < value
            && 0 <= o.remainingCommission <= commission
            && o.remainingCommission + o.clawbackAmount == commission
            && 0 <= o.remainingValue < value
            && (o.isFullRefund ==> o.remainingCommission == 0 && o.clawbackAmount == commission)
  {
    var remaining := value - refund;
    ProductBetween(commission, remaining, value);
    RoundWithin(commission * remaining, commission, value);
    if remaining == 0 { assert commission * remaining == 0; }
  }

  /** Only a positive amount up to the order's value can be refunded. */
  lemma RefundIsBounded(value: int, commission: int, refund: int)
    ensures CalculateRefund(value, commission, refund).Ok? <==> 0 < refund <= value
    ensures CalculateRefund(value, commission, refund) == Err(NotPositive) <==> refund <= 0
  {
  }

  /** An order after some refunds: what is left of it, and every clawback so far. */
  datatype Order = Order(value: int, commission: int, clawbacks: int)

  function Refund(order: Order, amount: int): Result<Order, RefundError> {
    match CalculateRefund(order.value, order.commission, amount)
    case Err(e) => Err(e)
    case Ok(o) => Ok(Order(o.remainingValue, o.remainingCommission, order.clawbacks + o.clawbackAmount))
  }

  function RefundAll(order: Order, amounts: seq<int>): Result<Order, RefundError>
    decreases |amounts|
  {
    if amounts == [] then Ok(order)
    else
      match Refund(order, amounts[0])
      case Err(e) => Err(e)
      case Ok(next) => RefundAll(next, amounts[1..])
  }

  /** One refund goes through exactly when it is positive and within what is left, and takes it off. */
  lemma RefundTakesOff(order: Order, amount: int)
    requires order.commission >= 0
    ensures Refund(order, amount).Ok? <==> 0 < amount <= order.value
    ensures Refund(order, amount).Ok? ==>
              var next := Refund(order, amount).value;
              && next.value == order.value - amount
              && next.commission + next.clawbacks == order.commission + order.clawbacks
              && -order.value <= 2 * (order.commission * next.value - next.commission * order.value) < order.value
  {
    if 0 < amount <= order.value { RefundSplits(order.value, order.commission, amount); }
  }

  /** How far the commission is from its exact share of the order's first value, times twice that value. */
  function Drift(first: Order, now: Order): int {
    2 * (now.commission * first.value - first.commission * now.value)
  }

  predicate DriftWithin(first: Order, now: Order, k: int) {
    -(k * first.value) <= Drift(first, now) <= k * first.value
  }

  /** One more refund moves the commission at most half a cent further off. */
  lemma DriftGrows(first: Order, now: Order, next: Order, amount: int, k: nat)
    requires first.value > 0 && now.value >= 0
    requires Refund(now, amount) == Ok(next)
    requires DriftWithin(first, now, k)
    ensures DriftWithin(first, next, k + 1)
  {
    var v0, c0, v, c, v', c' := first.value, first.commission, now.value, now.commission, next.value, next.commission;
    var e := 2 * (c' * v - c * v');
    assert -v <= e <= v;
    var d := Drift(first, now);
    var d' := Drift(first, next);
    assert v * d' == v0 * e + v' * d by {
      Expand(v0, c0, v, c, v', c');
    }
    Bound(v0, v, v', e, d, k);
    Cancel(v, d', (k + 1) * v0);
  }

  lemma Expand(v0: int, c0: int, v: int, c: int, v': int, c': int)
    ensures v * (2 * (c' * v0 - c0 * v')) == v0 * (2 * (c' * v - c * v')) + v' * (2 * (c * v0 - c0 * v))
  {
  }

  lemma Bound(v0: int, v: int, v': int, e: int, d: int, k: nat)
    requires v0 > 0 && 0 <= v' < v && -v <= e <= v && -(k * v0) <= d <= k * v0
    ensures -(v * ((k + 1) * v0)) <= v0 * e + v' * d <= v * ((k + 1) * v0)
  {
    assert -(v0 * v) <= v0 * e <= v0 * v;
    var b := k * v0;
    assert -(v' * b) <= v' * d <= v' * b;
    assert 0 <= b && v' * b <= v * b;
    assert v * ((k + 1) * v0) == v * b + v * v0;
  }

  lemma Cancel(v: int, a: int, b: int)
    requires v > 0 && -(v * b) <= v * a <= v * b
    ensures -b <= a <= b
  {
    SignOfProduct(a - b, v);
    SignOfProduct(-b - a, v);
    Distribute(a, -b, v);
    Distribute(-b, -a, v);
  }

  /**
   * Any k whole-cent refunds: kept commission plus clawbacks is the original to the cent, the kept
   * part never rises nor goes negative, and it is within k/2 cents of its exact share.
   */
  lemma {:induction false} RefundsConserve(first: Order, now: Order, amounts: seq<int>, k: nat)
    requires first.value > 0 && now.commission >= 0 && now.value >= 0 && DriftWithin(first, now, k)
    requires RefundAll(now, amounts).Ok?
    ensures var last := RefundAll(now, amounts).value;
            && last.commission + last.clawbacks == now.commission + now.clawbacks
            && 0 <= last.commission <= now.commission
            && DriftWithin(first, last, k + |amounts|)
    decreases |amounts|
  {
    if amounts != [] {
      var next := Refund(now, amounts[0]).value;
      RefundSplits(now.value, now.commission, amounts[0]);
      DriftGrows(first, now, next, amounts[0], k);
      RefundsConserve(first, next, amounts[1..], k + 1);
    }
  }

  /** The same, from a fresh order; a last refund of all that is left takes all that is left. */
  lemma RefundsOfAnOrder(value: int, commission: nat, amounts: seq<int>)
    requires value > 0 && RefundAll(Order(value, commission, 0), amounts).Ok?
    ensures var last := RefundAll(Order(value, commission, 0), amounts).value;
            && last.commission + last.clawbacks == commission
            && 0 <= last.commission <= commission
            && -(|amounts| * value) <= 2 * (last.commission * value - commission * last.value) <= |amounts| * value
            && (last.value == 0 ==> last.commission == 0)
  {
    var first := Order(value, commission, 0);
    RefundsConserve(first, first, amounts, 0);
    FullyRefundedKeepsNothing(first, amounts);
  }

  lemma {:induction false} FullyRefundedKeepsNothing(order: Order, amounts: seq<int>)
    requires order.commission >= 0 && RefundAll(order, amounts).Ok? && order.value > 0
    ensures RefundAll(order, amounts).value.value == 0 ==> RefundAll(order, amounts).value.commission == 0
    decreases |amounts|
  {
    if amounts != [] {
      var next := Refund(order, amounts[0]).value;
      RefundSplits(order.value, order.commission, amounts[0]);
      if next.value != 0 {
        FullyRefundedKeepsNothing(next, amounts[1..]);
      }
    }
  }

  // ----- payouts

  datatype Breakdown = Breakdown(gross: int, fee: int, net: int)

  /** A percentage such as 5 or 2.5. */
  datatype Percent = Percent(num: nat, den: nat)

  predicate IsPercent(p: Percent) {
    p.den > 0
  }

  function CalculatePayoutBreakdown(gross: int, p: Percent): Breakdown
    requires IsPercent(p)
  {
    var fee := RoundHalfUp(gross * p.num, 100 * p.den);
    Breakdown(gross, fee, gross - fee)
  }

  /** The fee is that percentage of the gross, to the nearest cent and halves up. */
  predicate IsFee(fee: int, gross: int, p: Percent) {
    -(100 * p.den) <= 2 * (gross * p.num - fee * (100 * p.den)) < 100 * p.den
  }

  /**
   * The fee is the rate to the nearest cent, fee and net add back up to the gross, and for a fee of at
   * most 100% neither is negative.
   */
  lemma BreakdownAddsUp(gross: nat, p: Percent)
    requires IsPercent(p)
    ensures var b := CalculatePayoutBreakdown(gross, p);
            && IsFee(b.fee, gross, p) && b.fee + b.net == b.gross == gross
            && (p.num <= 100 * p.den ==> 0 <= b.fee <= gross && 0 <= b.net)
  {
    if p.num <= 100 * p.den {
      ProductBetween(gross, p.num, 100 * p.den);
      RoundWithin(gross * p.num, gross, 100 * p.den);
    }
  }
}
