/**
 * Trade sizing: the balance-percentage rule of the Dummy, Technical and
 * Breakout strategies and the risk rule of the Fractal strategy, both
 * rounded to a whole number of lots the way Python's `round` does.
 */
module Sizing {
  import opened Wrappers
  import opened Model

  /** Python's `round(x)`: the nearest integer, a tie going to the even one. */
  function RoundHalfEven(x: real): (n: int)
    ensures (n as real) - 0.5 <= x <= (n as real) + 0.5
    ensures (x - n as real == 0.5 || n as real - x == 0.5) ==> n % 2 == 0
  {
    var f := x.Floor;
    var frac := x - f as real;
    if frac < 0.5 then f
    else if frac > 0.5 then f + 1
    else if f % 2 == 0 then f else f + 1
  }

  /** Rounding to the nearest integer never reverses the order of two numbers. */
  lemma RoundHalfEvenMonotonic(x: real, y: real)
    requires x <= y
    ensures RoundHalfEven(x) <= RoundHalfEven(y)
  {
    var fx, fy := x.Floor, y.Floor;
    if fx == fy {
      var dx, dy := x - fx as real, y - fy as real;
      assert dx <= dy;
    }
  }

  /** `q` is a whole number of lots. */
  predicate IsLotMultiple(q: real, lot: real)
    requires lot > 0.0
  {
    (q / lot).Floor as real == q / lot
  }

  /** `round(q / lot) * lot`: the whole number of lots nearest to `q`. */
  function RoundToLot(q: real, lot: real): (r: real)
    requires lot > 0.0
    ensures IsLotMultiple(r, lot)
    ensures q - lot / 2.0 <= r <= q + lot / 2.0
  {
    var n := RoundHalfEven(q / lot);
    var m := n as real;
    var x := q / lot;
    assert (m * lot) / lot == m;
    assert x * lot == q;
    assert m - 0.5 <= x <= m + 0.5;
    assert (m - 0.5) * lot <= x * lot <= (m + 0.5) * lot;
    assert (m + 0.5) * lot == m * lot + lot / 2.0;
    assert (m - 0.5) * lot == m * lot - lot / 2.0;
    assert m * lot - lot / 2.0 <= q;
    assert m * lot <= q + lot / 2.0;
    m * lot
  }

  lemma MulMonotonic(a: real, b: real, c: real)
    requires a <= b && c > 0.0
    ensures a * c <= b * c
  {
    assert b * c - a * c == (b - a) * c;
  }

  lemma DivMonotonic(a: real, b: real, c: real)
    requires a <= b && c > 0.0
    ensures a / c <= b / c
  {
    assert b / c - a / c == (b - a) / c;
  }

  /** Rounding to lots keeps the order of two quantities. */
  lemma RoundToLotMonotonic(q1: real, q2: real, lot: real)
    requires lot > 0.0 && q1 <= q2
    ensures RoundToLot(q1, lot) <= RoundToLot(q2, lot)
  {
    DivMonotonic(q1, q2, lot);
    RoundHalfEvenMonotonic(q1 / lot, q2 / lot);
    var n1, n2 := RoundHalfEven(q1 / lot) as real, RoundHalfEven(q2 / lot) as real;
    MulMonotonic(n1, n2, lot);
    assert RoundToLot(q1, lot) == n1 * lot && RoundToLot(q2, lot) == n2 * lot;
  }

  /**
   * The balance that sizing may spend: the quote asset's wallet balance on
   * futures, its free balance on spot; None when the balance query failed
   * or the quote asset is missing.
   */
  function ResolveBalance(balances: Option<Balances>, asset: string, futures: bool): (r: Option<real>)
    ensures r.Some? <==> balances.Some? && asset in balances.value
    ensures r.Some? && futures ==> r.value == balances.value[asset].walletBalance
    ensures r.Some? && !futures ==> r.value == balances.value[asset].free
  {
    match balances
    case None => None
    case Some(b) =>
      if asset in b then Some(if futures then b[asset].walletBalance else b[asset].free) else None
  }

  /** `balance * pct / 100 / price`, rounded to lots. */
  function BalancePctSize(balance: real, pct: real, price: real, lot: real): (r: real)
    requires price != 0.0 && lot > 0.0
    ensures IsLotMultiple(r, lot)
    ensures var raw := balance * pct / 100.0 / price;
            raw - lot / 2.0 <= r <= raw + lot / 2.0
  {
    RoundToLot(balance * pct / 100.0 / price, lot)
  }

  /** `balance * riskPct / 100 / |price - stop|`, rounded to lots: losing `riskPct` of the balance at the stop. */
  function RiskSize(balance: real, riskPct: real, price: real, stop: real, lot: real): (r: real)
    requires price != stop && lot > 0.0
    ensures IsLotMultiple(r, lot)
    ensures var raw := balance * riskPct / 100.0 / Distance(price, stop);
            raw - lot / 2.0 <= r <= raw + lot / 2.0
  {
    RoundToLot(balance * riskPct / 100.0 / Distance(price, stop), lot)
  }

  function Distance(a: real, b: real): (d: real)
    ensures d >= 0.0 && (d == a - b || d == b - a)
  {
    if a >= b then a - b else b - a
  }

  /**
   * `get_trade_size` of the Dummy strategy (and the unused one of Technical
   * and Breakout): None when the balance cannot be resolved, otherwise the
   * balance-percentage size of the resolved balance.
   */
  function PctTradeSize(balances: Option<Balances>, contract: Contract, futures: bool, pct: real, price: real): (r: Option<real>)
    requires price != 0.0 && contract.lotSize > 0.0
    ensures r.None? <==> ResolveBalance(balances, contract.quoteAsset, futures).None?
    ensures r.Some? ==> IsLotMultiple(r.value, contract.lotSize)
    ensures r.Some? ==> r.value == BalancePctSize(ResolveBalance(balances, contract.quoteAsset, futures).value, pct, price, contract.lotSize)
  {
    match ResolveBalance(balances, contract.quoteAsset, futures)
    case None => None
    case Some(balance) => Some(BalancePctSize(balance, pct, price, contract.lotSize))
  }

  /** `get_trade_size` of the Fractal strategy: None when the balance cannot be resolved, otherwise the risk size. */
  function RiskTradeSize(balances: Option<Balances>, contract: Contract, futures: bool, riskPct: real, price: real, stop: real): (r: Option<real>)
    requires price != stop && contract.lotSize > 0.0
    ensures r.None? <==> ResolveBalance(balances, contract.quoteAsset, futures).None?
    ensures r.Some? ==> IsLotMultiple(r.value, contract.lotSize)
    ensures r.Some? ==> r.value == RiskSize(ResolveBalance(balances, contract.quoteAsset, futures).value, riskPct, price, stop, contract.lotSize)
  {
    match ResolveBalance(balances, contract.quoteAsset, futures)
    case None => None
    case Some(balance) => Some(RiskSize(balance, riskPct, price, stop, contract.lotSize))
  }

  /** More balance never gives a smaller balance-percentage size. */
  lemma BalancePctSizeMonotonic(b1: real, b2: real, pct: real, price: real, lot: real)
    requires b1 <= b2 && pct >= 0.0 && price > 0.0 && lot > 0.0
    ensures BalancePctSize(b1, pct, price, lot) <= BalancePctSize(b2, pct, price, lot)
  {
    assert b1 * pct <= b2 * pct;
    assert b1 * pct / 100.0 <= b2 * pct / 100.0;
    assert b1 * pct / 100.0 / price <= b2 * pct / 100.0 / price;
    RoundToLotMonotonic(b1 * pct / 100.0 / price, b2 * pct / 100.0 / price, lot);
  }

  /** More balance never gives a smaller risk size. */
  lemma RiskSizeMonotonic(b1: real, b2: real, riskPct: real, price: real, stop: real, lot: real)
    requires b1 <= b2 && riskPct >= 0.0 && price != stop && lot > 0.0
    ensures RiskSize(b1, riskPct, price, stop, lot) <= RiskSize(b2, riskPct, price, stop, lot)
  {
    var d := Distance(price, stop);
    assert b1 * riskPct <= b2 * riskPct;
    assert b1 * riskPct / 100.0 <= b2 * riskPct / 100.0;
    assert b1 * riskPct / 100.0 / d <= b2 * riskPct / 100.0 / d;
    RoundToLotMonotonic(b1 * riskPct / 100.0 / d, b2 * riskPct / 100.0 / d, lot);
  }

  /** A balance of 10000 at 10% and a price of 100 buys 10 units in lots of 0.001. */
  lemma DummySizingScenario()
    ensures BalancePctSize(10000.0, 10.0, 100.0, 0.001) == 10.0
  {
    assert 10000.0 * 10.0 / 100.0 / 100.0 == 10.0;
    assert 10.0 / 0.001 == 10000.0;
    assert RoundHalfEven(10000.0) == 10000;
  }
}
