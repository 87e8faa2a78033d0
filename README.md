# Candle aggregation and position lifecycle of a trading strategy engine

This project models the engine of `strategies.py`. A strategy activation
owns one candle series and one trade list for an instrument and a timeframe.
Each trade tick is folded into fixed-width OHLCV candles. When a candle
opens, the activation evaluates the entry signal of its variant (Technical,
Breakout, Fractal or Dummy). It sizes the trade from the account balance
and places a market order. It then polls an unfilled order until the fill
is known. On every tick inside a candle it checks the open trade's
stop-loss and take-profit rules and sends the exit order when one fires.

Layout, one module per concern:

- `model.dfy` (`Model`) holds the records: `Candle`, `Trade`, `OrderStatus`, `Balance`, `Contract`, `Client`, the variant `Kind`, and the timeframe table `TF_EQUIV`.
- `candles.dfy` (`CandleSeries`) is the candle aggregator as functions. `Ingest` gives the series after one tick. The lemmas cover gap filling, contiguity and replays.
- `sizing.dfy` (`Sizing`) holds the balance-percentage and risk sizing rules. They round to lots as Python's `round` does: to the nearest integer, a tie going to the even one.
- `signals.dfy` (`Signals`) holds the entry signals, Fractal pattern detection and the exit rules, all as pure functions.
- `trades.dfy` (`TradeLog`) counts open trades, finds trades by position or order id, and builds the entry and exit changes to a trade.
- `scenarios.dfy` (`Scenarios`) is a client of the class. It shows what a caller can conclude from the contracts alone.
- `strategy.dfy` (`Strategies`) is the class `Strategy`. Its fields are `candles`, `trades`, `ongoingPosition` and the Fractal stop lists, and its methods update them in place. The four subclasses of the source are one class that dispatches on `kind`.

The class invariant `Valid()` is the position invariant. A position is
ongoing exactly when one trade is open, and no more than one trade is ever
open. The constructor establishes it with an empty trade list, and every
method keeps it.

Exchange calls are method parameters that hold the exchange's answer:
`get_balances`, `place_order`, `get_order_status` and the client's own
`get_trade_size`, each an `Option` where `None` is the call's `None`.
Methods return the order they sent (side and quantity). Their contracts can
therefore say when no order is sent. The wall clock is the parameter `now`.
Prices, sizes and balances are `real`: exact, an abstraction of Python floats.

## Notes on the code's behaviour

A few facts about the program that a reader might not expect:

- The fractal pattern compares the candle at offset -2 with the candles at -1, -3 and -4: four candles in all, although the source's variable names speak of the last five.
- Sizing rounds to the nearest lot, ties to even; it never floors.
- Technical and Breakout take their size from the client's `get_trade_size`; their own balance rule is never called.
- A tick is logged as stale from 2000 ms of delay, inclusive. Only the log depends on this, so it is left out.
- The interface never supplies `stop_loss_pct` or `take_profit_pct`, so a running Technical or Breakout activation exits at the 1% and 2% defaults.

## Model

| member | source | states |
|---|---|---|
| `Model.IntervalMs` | strategies.py:13-29 | the candle width is defined exactly for 1m, 5m, 15m, 30m, 1h and 4h, as a positive number of whole minutes in ms (60000 ms for 1m); "1d" has none |
| `Model.TechnicalKind` | strategies.py:474-491 | a Technical activation keeps its EMA, RSI and balance parameters; its stop-loss percentage is the given one or 1% when absent, its take-profit percentage the given one or 2% when absent |
| `Model.BreakoutKind` | strategies.py:621-634 | a Breakout activation keeps its minimum volume and balance percentage; stop-loss and take-profit default to 1% and 2% exactly when not given |
| `CandleSeries.Absorb` | strategies.py:63-70 | an in-interval tick keeps the timestamp and open, sets close to the price and adds the size to the volume; when low <= high the new range is max(high, price) and min(low, price); a well-formed candle stays well formed |
| `CandleSeries.GapCandles` | strategies.py:93-106 | the n synthetic candles are flat at the old last close with zero volume, the j-th starting (j+1) intervals after the old last candle |
| `CandleSeries.Ingest` | strategies.py:61-139 | a tick is same_candle exactly when it is before the end of the last interval; every earlier candle is untouched; same_candle keeps the length and replaces only the last candle by its update; new_candle keeps the old series as a prefix |
| `CandleSeries.IngestNewCandle` | strategies.py:78-139 | a boundary-crossing tick appends exactly (ts - last.ts) / tf candles, with timestamps stepping by tf; all but the last are flat at the old close with zero volume; the last has OHLC = price and volume = size; its interval contains ts |
| `CandleSeries.IngestKeepsContiguous` | strategies.py:61-139 | a gap-free series (consecutive starts exactly one interval apart) stays gap-free after any tick |
| `CandleSeries.IngestKeepsWellFormed` | strategies.py:61-139 | if every candle has open and close inside [low, high], that still holds after any tick |
| `CandleSeries.IngestAllKeepsContiguous` | strategies.py:51-139 | after any stream of ticks a gap-free series is still gap-free |
| `CandleSeries.ReplayAfterNewCandle` | strategies.py:63-139 | replaying a tick that just opened a candle is same_candle and appends no duplicate |
| `CandleSeries.ReplaySameCandle` | strategies.py:63-70 | replaying an in-interval tick gives the same prices as one copy; only the volume accumulates |
| `CandleSeries.OneBoundaryScenario` | strategies.py:122-139 | ticks at 0 s, 30 s and 65 s on 1m candles give one update and then one new candle at 60 s, with no flat candle |
| `CandleSeries.SkippedIntervalsScenario` | strategies.py:78-120 | ticks at 0 s and 185 s on 1m candles give flat candles at 60 s and 120 s at the first close, then the tick's candle at 180 s |
| `Sizing.RoundHalfEven` | strategies.py:253 | the result is an integer within 1/2 of x, and on a tie it is even |
| `Sizing.RoundHalfEvenMonotonic` | strategies.py:253 | rounding preserves order |
| `Sizing.RoundToLot` | strategies.py:252-254 | the result is a whole number of lots within half a lot of the raw size |
| `Sizing.RoundToLotMonotonic` | strategies.py:333-335 | rounding to lots preserves order |
| `Sizing.ResolveBalance` | strategies.py:238-249 | a balance resolves exactly when the query answered and holds the quote asset; futures read the wallet balance and spot the free balance |
| `Sizing.BalancePctSize` | strategies.py:251-254 | the size is a whole number of lots within half a lot of balance*pct/100/price |
| `Sizing.RiskSize` | strategies.py:331-335 | the size is a whole number of lots within half a lot of balance*risk/100/abs(price - stop) |
| `Sizing.PctTradeSize` | strategies.py:232-255 | None exactly when the balance does not resolve, otherwise the balance-percentage size of the resolved balance |
| `Sizing.RiskTradeSize` | strategies.py:311-336 | None exactly when the balance does not resolve, otherwise the risk size of the resolved balance |
| `Sizing.BalancePctSizeMonotonic` | strategies.py:251-255 | more balance never gives a smaller size, for a positive price and a non-negative percentage |
| `Sizing.RiskSizeMonotonic` | strategies.py:331-336 | more balance never gives a smaller risk size |
| `Sizing.DummySizingScenario` | strategies.py:251-255 | balance 10000 at 10%, price 100 and lot 0.001 give a size of 10 |
| `Signals.TechnicalSignal` | strategies.py:546-553 | long exactly when RSI < 30 and MACD > signal line; short exactly when RSI > 70 and MACD < signal line; else 0 |
| `Signals.BreakoutSignal` | strategies.py:661-674 | long exactly when close[-1] > high[-2] with volume above the minimum; short exactly when not long and close[-1] < low[-2] with volume above the minimum |
| `Signals.BreakoutShortIndependentOfOrder` | strategies.py:661-674 | on a well-formed previous candle the short rule holds without the "not long" condition |
| `Signals.FractalBearish` | strategies.py:397-403 | a value exactly when high[-2] is strictly above the highs at -1, -3 and -4, and then it is high[-2]*1.0002 |
| `Signals.FractalBullish` | strategies.py:405-411 | a value exactly when low[-2] is strictly below the lows at -1, -3 and -4, and then it is low[-2]*0.9998 |
| `Signals.FractalStopsOutsideWindow` | strategies.py:397-411 | with positive prices a bearish stop is above all four highs and a bullish stop below all four lows |
| `Signals.FractalSell` | strategies.py:428-440 | a sell needs RSI below 55 and the fast EMA below both the slow and the very slow EMA |
| `Signals.FractalBuy` | strategies.py:442-454 | a buy needs RSI above 45 and the fast EMA above both the slow and the very slow EMA |
| `Signals.FractalSignal` | strategies.py:428-472 | 1 exactly when the buy condition holds; -1 exactly when it does not and the sell condition holds; else 0 |
| `Signals.FractalBuySellExclusive` | strategies.py:428-472 | on a candle with 0 <= low <= high the buy and sell conditions never both hold, so preferring buy hides no sell |
| `Signals.Signal` | strategies.py:257-259 | every variant gives -1, 0 or 1, and Dummy always gives 1 |
| `Signals.PercentExit` | strategies.py:573-596 | long: stop-loss iff price <= entry*(1 - sl/100), otherwise take-profit iff price >= entry*(1 + tp/100); short: the mirror rule |
| `Signals.PercentExitMirror` | strategies.py:694-717 | the short rule equals the long rule with the price reflected about the entry |
| `Signals.PercentExitHoldBand` | strategies.py:573-596 | with a positive entry and non-negative percentages, a trade is held exactly while the price is strictly between its two levels |
| `Signals.EntryLevels` | strategies.py:561-570 | the stop and target computed at entry are below and above the close for a long, and above and below for a short |
| `Signals.EntryLevelsMatchExit` | strategies.py:561-596 | a trade filled at that close is stopped exactly at its entry stop level, and takes profit only beyond its entry target |
| `Signals.FractalTakeProfit` | strategies.py:353-364 | the target is 1.7 times the stop distance beyond the entry, on the side opposite the stop |
| `Signals.FractalExit` | strategies.py:347-369 | stop-loss exactly when the price reaches the stop; take-profit exactly when it does not and reaches the target |
| `Signals.FractalLongHoldBand` | strategies.py:351-359 | a long with its stop below the entry is held exactly while stop < price < entry + 1.7*(entry - stop) |
| `Signals.FractalShortHoldBand` | strategies.py:360-368 | a short with its stop above the entry is held exactly while entry - 1.7*(stop - entry) < price < stop |
| `TradeLog.OnlyFirstOpen` | strategies.py:72-74 | with at most one open trade, every trade other than the first open one is closed |
| `TradeLog.FirstOpen` | strategies.py:72-74 | the index found is the first open trade, or the list length when none is open |
| `TradeLog.FirstWithId` | strategies.py:147-151 | the index found is the first trade with that entry id, or the list length when there is none |
| `TradeLog.ExitSide` | strategies.py:599 | a long is exited by a sell and a short by a buy |
| `TradeLog.ExitQuantity` | strategies.py:599-609 | never more than the trade's quantity; a spot sell with the base asset in the balances is min(free base, quantity); otherwise the quantity |
| `TradeLog.AfterExit` | strategies.py:598-618 | after an exit attempt the trade carries the exit quantity whether or not the order went through; it is closed exactly when the exchange answered; side, entry price, entry id, time and pnl are kept |
| `TradeLog.EntryTrade` | strategies.py:192-204 | a new trade is open with pnl 0, entry id = order id and quantity = executed quantity; it has an entry price only if the order filled |
| `Strategies.ExitRule` | strategies.py:269-271 | Dummy never exits; Technical and Breakout use the percentage rule; Fractal uses its stop rule with the latest stop of the trade's side |
| `Strategies.EntrySize` | strategies.py:338-343 | Technical and Breakout take the client's size; Dummy sizes on its balance percentage; Fractal sizes by risk against the latest stop of the signal's side (the long list on a buy, the short list on a sell); Dummy and Fractal are None exactly when the balance does not resolve, and otherwise give whole lots |
| `Strategies.Strategy.constructor` | strategies.py:17-35 | the candle width comes from the timeframe table; no position, no candles, no trades, empty stop lists; the position invariant holds |
| `Strategies.Strategy.ClosePosition` | strategies.py:598-618 | sells a long or buys back a short at the clamped quantity; the clamped quantity is stored even if the order fails; the trade is closed and the flag cleared exactly when the exchange answered; the invariant holds |
| `Strategies.Strategy.CheckTpSl` | strategies.py:573-596 | the variant's exit rule at the last close decides; on Hold nothing changes; otherwise exactly that trade's exit is sent, as in ClosePosition |
| `Strategies.Strategy.CheckOpenTrades` | strategies.py:72-74 | only the first open trade, if it has an entry price, can be exited; all other trades stay unchanged |
| `Strategies.Strategy.ParseTrades` | strategies.py:51-139 | the new series and tick kind are those of Ingest; new_candle leaves the trades alone; same_candle runs the exit sweep at the tick's price; the invariant holds |
| `Strategies.Strategy.AppendCandles` | strategies.py:78-139 | the gap-filling loop produces exactly the series Ingest gives for a boundary-crossing tick |
| `Strategies.Strategy.PlaceEntry` | strategies.py:157-205 | a spot short sends nothing; otherwise the market order is sent; on an answer the flag is set, exactly one open trade is appended, and an unfilled order schedules a poll; with no answer nothing changes |
| `Strategies.Strategy.OpenPosition` | strategies.py:555-571 | no order is sent exactly when sizing is unavailable or the entry is a spot short; otherwise it is an entry of the computed size |
| `Strategies.Strategy.CheckTrade` | strategies.py:213-217 | an order is sent only on new_candle with no ongoing position and a signal of 1 or -1, and then exactly when sizing is available and the entry is not a spot short; otherwise nothing changes; on an answer exactly one open trade is appended and an unfilled order schedules a poll; with no answered entry no poll is scheduled |
| `Scenarios.PendingFillScenario` | strategies.py:141-205 | a pending entry leaves the trade without an entry price; a poll with no answer keeps it so; a poll answering filled sets it to the fill price |
| `Strategies.Strategy.CheckOrderStatus` | strategies.py:141-155 | polling stops exactly on a filled status, which backfills entry price and quantity on the first trade with that entry id only; any other answer changes nothing |
| `Strategies.Strategy.StopList` | strategies.py:456-465 | does nothing while a position is ongoing; otherwise appends a bullish stop to the long list, else a bearish stop to the short list, else nothing |

The unused `get_trade_size` of Technical (strategies.py:493-516) and of
Breakout (strategies.py:636-659) is the same rule as `Sizing.PctTradeSize`.
The inline exit of the Fractal strategy (strategies.py:375-395) and
Breakout's `_close_position` (strategies.py:719-739) are the same code as
`Strategies.Strategy.ClosePosition`.

## Left out

- RSI, EMA and MACD are computed with a dataframe library in floating point (strategies.py:292-309, 413-426, 518-544). They enter the signal rules as the abstract `Indicators` values.
- The `Timer` that re-runs the order-status poll every 2 s is left out. `PlaceEntry` returns the order id to poll, and `CheckOrderStatus` models one poll and says whether to poll again.
- The stale-tick warning, every log message, `_add_log` and the `logs` list are left out. They do not affect state.
- The `round(..., 8)` cleanup after lot rounding is a float artefact and is left out.
- Float behaviour is not modelled: prices are exact reals, and the float division of timestamps is modelled as exact integer division.
- Candles and trades are values: an update in place replaces the element of the sequence. Aliasing between a `Candle` or `Trade` object and the lists is not captured.
- The EMA and RSI lengths of the Technical and Fractal variants are stored in `Kind`, but nothing reads them: the indicators are inputs.
- `Strategies.Strategy.PlaceEntry`: requires that no position is ongoing. Its callers in the source only call it when none is.
- `Strategies.Strategy.CheckTpSl`, `Strategies.Strategy.CheckOpenTrades` and `Strategies.Strategy.ParseTrades`: one balance answer and one order answer are used for the whole sweep. The position invariant allows at most one exit per sweep.
- `Strategies.Strategy.constructor`: requires a timeframe from the table and a positive lot size. An unknown timeframe (such as "1d", which the interface offers) makes the source's lookup fail. A zero lot size makes its sizing fail.
- The Fractal stop lists are read at their last element (strategies.py:340, 352, 361). The methods require them to be non-empty where they are read. `StopList` fills them, although no caller of it appears in strategies.py.
- `Strategies.Strategy.StopList`: the source's `stop_list` appends to whichever two lists its caller passes in (strategies.py:456, 461, 464). The model always appends to the strategy's own stop lists, which are the lists the rest of the strategy reads. Passing other lists, and aliasing between them, is not captured.
- `Strategies.CanSize`, `Sizing.BalancePctSize`, `Sizing.RiskSize`: sizing requires a non-zero close for the Dummy rule and a close different from the stop for the Fractal rule. On exactly those inputs the source divides by zero and raises `ZeroDivisionError` (strategies.py:251, 332). The model does not cover that exception.
- Seeding an activation with historical candles is done by the interface, which is not part of this model. The candle methods require a non-empty series.
- The interface code (panels, charts, credentials, the polling thread, activation checks) is not part of this model.
