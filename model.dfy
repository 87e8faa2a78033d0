/**
 * The records the trading core works on: candles, trades, order replies,
 * balances, the contract and the client, and the timeframe table.
 * Prices, sizes and balances are `real`: exact, an abstraction of the floats
 * the program uses.
 */
module Model {
  import opened Wrappers

  /** One OHLCV candle; `timestamp` is the start of its interval in ms. */
  datatype Candle = Candle(timestamp: int, open: real, high: real, low: real, close: real, volume: real)

  /** The side of a position: "long" or "short". */
  datatype Side = Long | Short

  /** A trade is "open" until its exit order has been accepted. */
  datatype TradeStatus = Open | Closed

  /** A trade record; `entryPrice` is None until the entry order is known to be filled. */
  datatype Trade = Trade(
    time: int,
    entryPrice: Option<real>,
    side: Side,
    status: TradeStatus,
    pnl: real,
    quantity: real,
    entryId: int)

  /** The side of a market order. */
  datatype OrderSide = Buy | Sell

  /** A market order sent to the exchange. */
  datatype Order = Order(side: OrderSide, quantity: real)

  /** The exchange's answer to an order placement or an order-status query. */
  datatype OrderStatus = OrderStatus(orderId: int, status: string, avgPrice: real, executedQty: real)

  /** The one order status that means the order was executed. */
  const FILLED := "filled"

  /** One asset of a balance query: spot clients read `free`, futures clients `walletBalance`. */
  datatype Balance = Balance(free: real, walletBalance: real)

  type Balances = map<string, Balance>

  /** The instrument traded. */
  datatype Contract = Contract(symbol: string, baseAsset: string, quoteAsset: string, lotSize: real)

  /** What the core reads of the exchange client besides its calls. */
  datatype Client = Client(platform: string, futures: bool)

  const SPOT_PLATFORM := "binance_spot"

  /** The result of folding one tick into the candle series. */
  datatype TickKind = SameCandle | NewCandle

  /** The timeframes the engine knows, in seconds; "1d" is not among them. */
  const TF_EQUIV: map<string, nat> :=
    map["1m" := 60, "5m" := 300, "15m" := 900, "30m" := 1800, "1h" := 3600, "4h" := 14400]

  /** The candle width in ms of a timeframe, None where the table has no entry. */
  function IntervalMs(timeframe: string): (r: Option<nat>)
    ensures r.Some? <==> timeframe in {"1m", "5m", "15m", "30m", "1h", "4h"}
    ensures r.Some? ==> r.value > 0 && r.value % 60000 == 0
    ensures timeframe == "1m" ==> r == Some(60000)
  {
    if timeframe in TF_EQUIV then Some(TF_EQUIV[timeframe] * 1000) else None
  }

  /**
   * The strategy variant of an activation with its parameters. The EMA and
   * RSI lengths only feed indicator computations, which are not part of
   * this model; they are kept so that each variant carries what it reads.
   */
  datatype Kind =
    | Technical(emaFast: int, emaSlow: int, emaSignal: int, rsiLength: int,
                stopLossPct: real, takeProfitPct: real, balancePct: real)
    | Breakout(minVolume: real, stopLossPct: real, takeProfitPct: real, balancePct: real)
    | Fractal(emaFast: int, emaSlow: int, emaVerySlow: int, rsiLength: int, riskPct: real)
    | Dummy(balancePct: real)

  const DEFAULT_STOP_LOSS_PCT: real := 1.0
  const DEFAULT_TAKE_PROFIT_PCT: real := 2.0

  /** An optional percentage parameter with its default, as `dict.get(key, default)` reads it. */
  function PctOrDefault(params: map<string, real>, key: string, default: real): (r: real)
    ensures key in params ==> r == params[key]
    ensures key !in params ==> r == default
  {
    if key in params then params[key] else default
  }

  /**
   * A Technical activation built from its parameters. The stop-loss and
   * take-profit percentages are optional and default to 1% and 2%; the
   * interface never supplies them, so a running activation uses the defaults.
   */
  function TechnicalKind(emaFast: int, emaSlow: int, emaSignal: int, rsiLength: int, balancePct: real,
                         optional: map<string, real>): (r: Kind)
    ensures r.Technical?
    ensures r.emaFast == emaFast && r.emaSlow == emaSlow && r.emaSignal == emaSignal
    ensures r.rsiLength == rsiLength && r.balancePct == balancePct
    ensures "stop_loss_pct" !in optional ==> r.stopLossPct == 1.0
    ensures "stop_loss_pct" in optional ==> r.stopLossPct == optional["stop_loss_pct"]
    ensures "take_profit_pct" !in optional ==> r.takeProfitPct == 2.0
    ensures "take_profit_pct" in optional ==> r.takeProfitPct == optional["take_profit_pct"]
  {
    Technical(emaFast, emaSlow, emaSignal, rsiLength,
              PctOrDefault(optional, "stop_loss_pct", DEFAULT_STOP_LOSS_PCT),
              PctOrDefault(optional, "take_profit_pct", DEFAULT_TAKE_PROFIT_PCT),
              balancePct)
  }

  /** A Breakout activation built from its parameters, with the same optional percentages. */
  function BreakoutKind(minVolume: real, balancePct: real, optional: map<string, real>): (r: Kind)
    ensures r.Breakout?
    ensures r.minVolume == minVolume && r.balancePct == balancePct
    ensures "stop_loss_pct" !in optional ==> r.stopLossPct == 1.0
    ensures "stop_loss_pct" in optional ==> r.stopLossPct == optional["stop_loss_pct"]
    ensures "take_profit_pct" !in optional ==> r.takeProfitPct == 2.0
    ensures "take_profit_pct" in optional ==> r.takeProfitPct == optional["take_profit_pct"]
  {
    Breakout(minVolume,
             PctOrDefault(optional, "stop_loss_pct", DEFAULT_STOP_LOSS_PCT),
             PctOrDefault(optional, "take_profit_pct", DEFAULT_TAKE_PROFIT_PCT),
             balancePct)
  }
}
