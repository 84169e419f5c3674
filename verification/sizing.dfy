/** The position-sizing arithmetic of `run_once`: a fixed fraction of equity is
    put at risk over the stop distance, and the position is scaled down to the
    leverage cap when it would exceed it. */
module Sizing {
  import opened Outcomes
  import opened Indicators

  /** Floor on the entry–stop distance, so the division never divides by zero. */
  const MinStopDistance: real := 0.00000001

  datatype Account = Account(equity: real, riskFraction: real, maxLeverage: real)

  datatype SizedOrder = SizedOrder(quantity: real, notional: real, riskAmount: real)

  /** `cap / notional` with a zero notional: reachable only when the cap is negative. */
  datatype SizingError = ZeroNotionalScale

  /** Dollar risk of the trade, never negative. */
  function RiskAmount(a: Account): (r: real)
    ensures r >= 0.0
    ensures a.equity * a.riskFraction >= 0.0 ==> r == a.equity * a.riskFraction
    ensures a.equity * a.riskFraction < 0.0 ==> r == 0.0
  {
    Max(a.equity * a.riskFraction, 0.0)
  }

  function StopDistance(entry: real, stop: real): (d: real)
    ensures d >= MinStopDistance && d >= Abs(entry - stop)
    ensures d == Abs(entry - stop) || d == MinStopDistance
  {
    Max(Abs(entry - stop), MinStopDistance)
  }

  /** Largest notional the account allows. */
  function Cap(a: Account): real
  {
    a.equity * a.maxLeverage
  }

  /** A non-negative amount below a positive total is a fraction in [0, 1) of it. */
  lemma QuotientBelowOne(part: real, total: real)
    requires 0.0 <= part < total
    ensures 0.0 <= part / total < 1.0
  {
  }

  /** Scaling a position onto the cap lands its notional exactly on the cap and,
      for a non-negative cap, never grows the quantity. */
  lemma ScaleOntoCap(qty: real, entry: real, cap: real)
    requires qty * entry > cap && qty * entry != 0.0
    ensures (qty * (cap / (qty * entry))) * entry == cap
    ensures cap >= 0.0 && qty >= 0.0 ==> 0.0 <= qty * (cap / (qty * entry)) <= qty
  {
    var n := qty * entry;
    var sc := cap / n;
    assert sc * n == cap;
    assert (qty * sc) * entry == sc * n;
    if cap >= 0.0 && qty >= 0.0 {
      assert n > 0.0;
      QuotientBelowOne(cap, n);
      assert qty * sc <= qty * 1.0;
    }
  }

  /** The unclamped quantity is non-negative for a non-negative risk, carries
      exactly the risk, and has a zero notional only for a zero risk or entry. */
  lemma QuantityFromRisk(risk: real, dist: real, entry: real)
    requires dist > 0.0
    ensures risk >= 0.0 ==> risk / dist >= 0.0
    ensures (risk / dist) * dist == risk
    ensures (risk / dist) * entry == 0.0 <==> risk == 0.0 || entry == 0.0
  {
  }

  /** Multiplying by a positive factor keeps the order of two quantities. */
  lemma ScaleMonotone(x: real, y: real, d: real)
    requires x <= y && d > 0.0
    ensures x * d <= y * d
  {
  }

  /** The leverage-cap clamp of `run_once` on a quantity bought at `entry`, as
      (quantity, notional): kept when its notional fits under the cap, scaled onto
      the cap when it does not, and the division error when the notional to scale
      is zero. */
  function Clamp(qty: real, entry: real, cap: real): (r: Result<(real, real), SizingError>)
    ensures r.Failure? <==> qty * entry > cap && qty * entry == 0.0
    ensures qty * entry <= cap ==> r == Success((qty, qty * entry))
    ensures r.Success? ==> r.value.1 <= cap && r.value.1 == r.value.0 * entry
    ensures r.Success? && qty * entry > cap ==> r.value.1 == cap
    ensures r.Success? && cap >= 0.0 && qty >= 0.0 ==> 0.0 <= r.value.0 <= qty
  {
    var notional := qty * entry;
    if notional > cap then
      if notional == 0.0 then
        Failure(ZeroNotionalScale)
      else
        ScaleOntoCap(qty, entry, cap);
        Success((qty * (cap / notional), cap))
    else
      Success((qty, notional))
  }

  function Size(entry: real, stop: real, a: Account): (r: Result<SizedOrder, SizingError>)
    ensures r.Failure? <==> Cap(a) < 0.0 && (RiskAmount(a) == 0.0 || entry == 0.0)
    ensures r.Success? ==>
      var o := r.value;
      && o.riskAmount == RiskAmount(a)
      && o.notional <= Cap(a)
      && o.notional == o.quantity * entry
      && (o.notional < Cap(a) ==> o.quantity * StopDistance(entry, stop) == o.riskAmount)
      && (Cap(a) >= 0.0 ==> o.quantity >= 0.0 && o.quantity * StopDistance(entry, stop) <= o.riskAmount)
    ensures r.Success? ==>
      var wanted := RiskAmount(a) / StopDistance(entry, stop);
      && (wanted * entry <= Cap(a) ==> r.value.quantity == wanted)
      && (wanted * entry > Cap(a) ==> r.value.notional == Cap(a) && r.value.quantity * entry == Cap(a))
  {
    var risk := RiskAmount(a);
    var dist := StopDistance(entry, stop);
    var qty := risk / dist;
    QuantityFromRisk(risk, dist, entry);
    var c := Clamp(qty, entry, Cap(a));
    if c.Failure? then Failure(c.error)
    else
      var o := SizedOrder(c.value.0, c.value.1, risk);
      if Cap(a) >= 0.0 then ScaleMonotone(o.quantity, qty, dist); Success(o) else Success(o)
  }

  /** A worked example: risking 1% of 3000 over a 2-point stop buys 15 units
      worth 1500, well under the 5x cap of 15000. */
  lemma SizeWorkedExample()
    ensures Size(100.0, 98.0, Account(3000.0, 0.01, 5.0)) == Success(SizedOrder(15.0, 1500.0, 30.0))
  {
  }

  /** A stop 0.01 away wants 1000 units (notional 100000); the 1x cap of 1000 scales
      the position to 10 units while the reported risk stays at 10. */
  lemma SizeClampExample()
    ensures Size(100.0, 99.99, Account(1000.0, 0.01, 1.0)) == Success(SizedOrder(10.0, 1000.0, 10.0))
  {
  }

  /** Clamping keeps the reported risk, so the risk actually taken is strictly
      below it whenever the cap binds on a positive risk. */
  lemma ClampedRiskBelowReported(entry: real, stop: real, a: Account)
    requires Cap(a) >= 0.0 && RiskAmount(a) > 0.0 && entry > 0.0
    requires (RiskAmount(a) / StopDistance(entry, stop)) * entry > Cap(a)
    ensures Size(entry, stop, a).Success?
    ensures var o := Size(entry, stop, a).value;
      o.notional == Cap(a) && o.quantity * StopDistance(entry, stop) < o.riskAmount
  {
    var dist := StopDistance(entry, stop);
    var qty := RiskAmount(a) / dist;
    var n := qty * entry;
    var sc := Cap(a) / n;
    assert qty > 0.0;
    assert n > 0.0;
    assert sc * n == Cap(a);
    assert (1.0 - sc) * n == n - Cap(a) > 0.0;
    assert sc < 1.0;
    assert qty * sc < qty;
    assert qty * dist == RiskAmount(a);
    assert (qty * sc) * dist < qty * dist;
  }
}
