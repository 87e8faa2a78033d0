/**
 * The pure decision rules of the strategies: entry signals, Fractal pattern
 * detection, the stop levels computed at entry, and the exit rules checked
 * on every tick inside a candle. Indicator values (RSI, MACD, EMAs) are
 * inputs here; how they are computed is not part of this model.
 */
module Signals {
  import opened Wrappers
  import opened Model

  /** Indicator values read at the second-to-last candle. */
  datatype Indicators = Indicators(
    rsi: real, macdLine: real, macdSignal: real,
    emaFast: real, emaSlow: real, emaVerySlow: real)

  /** 1 is long, -1 short, 0 no trade. */
  predicate IsSignal(x: int) { x == -1 || x == 0 || x == 1 }

  const FRACTAL_MARGIN: real := 0.0002

  /** Technical: long on an oversold RSI with MACD above its signal line, short on the mirror. */
  function TechnicalSignal(ind: Indicators): (r: int)
    ensures IsSignal(r)
    ensures r == 1 <==> ind.rsi < 30.0 && ind.macdLine > ind.macdSignal
    ensures r == -1 <==> ind.rsi > 70.0 && ind.macdLine < ind.macdSignal
  {
    if ind.rsi < 30.0 && ind.macdLine > ind.macdSignal then 1
    else if ind.rsi > 70.0 && ind.macdLine < ind.macdSignal then -1
    else 0
  }

  /** Breakout: the last close leaves the previous candle's range with enough volume. */
  function BreakoutSignal(candles: seq<Candle>, minVolume: real): (r: int)
    requires |candles| >= 2
    ensures IsSignal(r)
    ensures var last, prev := candles[|candles| - 1], candles[|candles| - 2];
            && (r == 1 <==> last.close > prev.high && last.volume > minVolume)
            && (r == -1 <==> !(last.close > prev.high) && last.close < prev.low && last.volume > minVolume)
  {
    var last, prev := candles[|candles| - 1], candles[|candles| - 2];
    if last.close > prev.high && last.volume > minVolume then 1
    else if last.close < prev.low && last.volume > minVolume then -1
    else 0
  }

  /** When the previous candle is well formed the two breakout conditions exclude each other, so the short rule needs no `else`. */
  lemma BreakoutShortIndependentOfOrder(candles: seq<Candle>, minVolume: real)
    requires |candles| >= 2
    requires candles[|candles| - 2].low <= candles[|candles| - 2].high
    ensures var last, prev := candles[|candles| - 1], candles[|candles| - 2];
            BreakoutSignal(candles, minVolume) == -1 <==> last.close < prev.low && last.volume > minVolume
  {
  }

  /**
   * A bearish fractal: the high two candles back is strictly above the
   * highs at offsets -1, -3 and -4; its stop sits 0.02% above that high.
   */
  function FractalBearish(candles: seq<Candle>): (r: Option<real>)
    requires |candles| >= 4
    ensures var n := |candles|;
            r.Some? <==> (candles[n - 2].high > candles[n - 4].high
                          && candles[n - 2].high > candles[n - 3].high
                          && candles[n - 2].high > candles[n - 1].high)
    ensures r.Some? ==> r.value == candles[|candles| - 2].high * (1.0 + FRACTAL_MARGIN)
  {
    var n := |candles|;
    if candles[n - 2].high > candles[n - 4].high
       && candles[n - 2].high > candles[n - 3].high
       && candles[n - 2].high > candles[n - 1].high
    then Some(candles[n - 2].high * (1.0 + FRACTAL_MARGIN))
    else None
  }

  /** A bullish fractal: the mirror of `FractalBearish` on the lows, with the stop 0.02% below. */
  function FractalBullish(candles: seq<Candle>): (r: Option<real>)
    requires |candles| >= 4
    ensures var n := |candles|;
            r.Some? <==> (candles[n - 2].low < candles[n - 4].low
                          && candles[n - 2].low < candles[n - 3].low
                          && candles[n - 2].low < candles[n - 1].low)
    ensures r.Some? ==> r.value == candles[|candles| - 2].low * (1.0 - FRACTAL_MARGIN)
  {
    var n := |candles|;
    if candles[n - 2].low < candles[n - 4].low
       && candles[n - 2].low < candles[n - 3].low
       && candles[n - 2].low < candles[n - 1].low
    then Some(candles[n - 2].low * (1.0 - FRACTAL_MARGIN))
    else None
  }

  /**
   * With positive prices, a bearish fractal's stop lies above every high of
   * the four candles it looks at, and a bullish fractal's stop below every low.
   */
  lemma FractalStopsOutsideWindow(candles: seq<Candle>, k: int)
    requires |candles| >= 4 && |candles| - 4 <= k < |candles|
    ensures var b := FractalBearish(candles);
            b.Some? && candles[|candles| - 2].high > 0.0 ==> b.value > candles[k].high
    ensures var b := FractalBullish(candles);
            b.Some? && candles[|candles| - 2].low > 0.0 ==> b.value < candles[k].low
  {
  }

  /** Python truthiness of an optional stop: present and non-zero. */
  predicate Truthy(o: Option<real>) { o.Some? && o.value != 0.0 }

  /**
   * The Fractal buy condition, on the low two candles back less 0.02%: that
   * level lies below the fast EMA and above the slow and very slow ones, so a
   * buy needs the fast EMA above both.
   */
  predicate FractalBuy(candles: seq<Candle>, ind: Indicators)
    requires |candles| >= 2
    ensures FractalBuy(candles, ind) ==> ind.rsi > 45.0 && ind.emaSlow < ind.emaFast && ind.emaVerySlow < ind.emaFast
  {
    var level := candles[|candles| - 2].low * (1.0 - FRACTAL_MARGIN);
    ind.rsi > 45.0 && level > ind.emaSlow && level < ind.emaFast && level > ind.emaVerySlow
  }

  /**
   * The Fractal sell condition, on the high two candles back plus 0.02%: the
   * mirror of the buy condition, so a sell needs the fast EMA below both.
   */
  predicate FractalSell(candles: seq<Candle>, ind: Indicators)
    requires |candles| >= 2
    ensures FractalSell(candles, ind) ==> ind.rsi < 55.0 && ind.emaFast < ind.emaSlow && ind.emaFast < ind.emaVerySlow
  {
    var level := candles[|candles| - 2].high * (1.0 + FRACTAL_MARGIN);
    ind.rsi < 55.0 && level < ind.emaSlow && level > ind.emaFast && level < ind.emaVerySlow
  }

  /** Fractal: buy first, then sell, else no trade. */
  function FractalSignal(candles: seq<Candle>, ind: Indicators): (r: int)
    requires |candles| >= 2
    ensures IsSignal(r)
    ensures r == 1 <==> FractalBuy(candles, ind)
    ensures r == -1 <==> !FractalBuy(candles, ind) && FractalSell(candles, ind)
  {
    if FractalBuy(candles, ind) then 1
    else if FractalSell(candles, ind) then -1
    else 0
  }

  /**
   * On a candle with `0 <= low <= high` the buy and sell conditions cannot
   * both hold (buy puts the lowered low above the slow EMA, sell puts the
   * raised high below it), so preferring buy never hides a sell.
   */
  lemma FractalBuySellExclusive(candles: seq<Candle>, ind: Indicators)
    requires |candles| >= 2
    requires 0.0 <= candles[|candles| - 2].low <= candles[|candles| - 2].high
    ensures !(FractalBuy(candles, ind) && FractalSell(candles, ind))
  {
    var c := candles[|candles| - 2];
    assert c.low * (1.0 - FRACTAL_MARGIN) <= c.high * (1.0 + FRACTAL_MARGIN);
  }

  /** The signal of each variant; Dummy always goes long. */
  function Signal(kind: Kind, candles: seq<Candle>, ind: Indicators): (r: int)
    requires |candles| >= 2
    ensures IsSignal(r)
    ensures kind.Dummy? ==> r == 1
  {
    match kind
    case Technical(_, _, _, _, _, _, _) => TechnicalSignal(ind)
    case Breakout(minVolume, _, _, _) => BreakoutSignal(candles, minVolume)
    case Fractal(_, _, _, _, _) => FractalSignal(candles, ind)
    case Dummy(_) => 1
  }

  /** What a tick inside a candle decides about an open trade. */
  datatype Exit = Hold | StopLoss | TakeProfit

  /**
   * Technical and Breakout exits, in percent of the entry price: a long is
   * stopped at or below `entry * (1 - sl/100)` and otherwise takes profit at
   * or above `entry * (1 + tp/100)`; a short is the mirror image.
   */
  function PercentExit(side: Side, entry: real, price: real, slPct: real, tpPct: real): (r: Exit)
    ensures side == Long ==>
              && (r == StopLoss <==> price <= entry * (1.0 - slPct / 100.0))
              && (r == TakeProfit <==> price > entry * (1.0 - slPct / 100.0) && price >= entry * (1.0 + tpPct / 100.0))
    ensures side == Short ==>
              && (r == StopLoss <==> price >= entry * (1.0 + slPct / 100.0))
              && (r == TakeProfit <==> price < entry * (1.0 + slPct / 100.0) && price <= entry * (1.0 - tpPct / 100.0))
  {
    match side
    case Long =>
      if price <= entry * (1.0 - slPct / 100.0) then StopLoss
      else if price >= entry * (1.0 + tpPct / 100.0) then TakeProfit
      else Hold
    case Short =>
      if price >= entry * (1.0 + slPct / 100.0) then StopLoss
      else if price <= entry * (1.0 - tpPct / 100.0) then TakeProfit
      else Hold
  }

  /** The short rule is the long rule with the price reflected about the entry price. */
  lemma PercentExitMirror(entry: real, price: real, slPct: real, tpPct: real)
    ensures PercentExit(Short, entry, price, slPct, tpPct) == PercentExit(Long, entry, 2.0 * entry - price, slPct, tpPct)
  {
  }

  /** With a positive entry and non-negative percentages, a trade is held exactly while the price is strictly between its two levels. */
  lemma PercentExitHoldBand(side: Side, entry: real, price: real, slPct: real, tpPct: real)
    requires entry > 0.0 && slPct >= 0.0 && tpPct >= 0.0
    ensures var (lo, hi) := if side == Long then (entry * (1.0 - slPct / 100.0), entry * (1.0 + tpPct / 100.0))
                            else (entry * (1.0 - tpPct / 100.0), entry * (1.0 + slPct / 100.0));
            lo <= entry <= hi && (PercentExit(side, entry, price, slPct, tpPct) == Hold <==> lo < price < hi)
  {
  }

  /**
   * The stop-loss and take-profit prices Technical and Breakout compute
   * from the last close when they open: below and above it for a long,
   * above and below it for a short. The entry order does not use them.
   */
  function EntryLevels(close: real, signal: int, slPct: real, tpPct: real): (r: (real, real))
    ensures signal == 1 ==> r == (close * (1.0 - slPct / 100.0), close * (1.0 + tpPct / 100.0))
    ensures signal != 1 ==> r == (close * (1.0 + slPct / 100.0), close * (1.0 - tpPct / 100.0))
    ensures close > 0.0 && slPct > 0.0 && tpPct > 0.0 ==>
              if signal == 1 then r.0 < close < r.1 else r.1 < close < r.0
  {
    if signal == 1 then (close * (1.0 - slPct / 100.0), close * (1.0 + tpPct / 100.0))
    else (close * (1.0 + slPct / 100.0), close * (1.0 - tpPct / 100.0))
  }

  /**
   * If a trade is filled at the close its levels were computed from, the
   * percentage exit fires exactly at those levels.
   */
  lemma EntryLevelsMatchExit(close: real, signal: int, price: real, slPct: real, tpPct: real)
    requires signal == 1 || signal == -1
    ensures var (sl, tp) := EntryLevels(close, signal, slPct, tpPct);
            var side := if signal == 1 then Long else Short;
            var exit := PercentExit(side, close, price, slPct, tpPct);
            && (exit == StopLoss <==> (if signal == 1 then price <= sl else price >= sl))
            && (exit == TakeProfit ==> (if signal == 1 then price >= tp else price <= tp))
  {
  }

  /** The Fractal take-profit: 1.7 times the distance from the entry to the stop, beyond the entry. */
  function FractalTakeProfit(entry: real, stop: real): (tp: real)
    ensures tp - entry == 1.7 * (entry - stop)
    ensures stop < entry ==> tp > entry
    ensures stop > entry ==> tp < entry
  {
    (entry - stop) * 1.7 + entry
  }

  /**
   * Fractal exits: a long stops at or below its stop and takes profit at or
   * above its take-profit; a short the mirror. When both trigger the stop
   * loss is the one reported.
   */
  function FractalExit(side: Side, entry: real, price: real, stop: real): (r: Exit)
    ensures var tp := FractalTakeProfit(entry, stop);
            var stopped := if side == Long then price <= stop else price >= stop;
            var profited := if side == Long then price >= tp else price <= tp;
            && (r == StopLoss <==> stopped)
            && (r == TakeProfit <==> !stopped && profited)
  {
    var tp := FractalTakeProfit(entry, stop);
    var stopped := if side == Long then price <= stop else price >= stop;
    var profited := if side == Long then price >= tp else price <= tp;
    if stopped then StopLoss else if profited then TakeProfit else Hold
  }

  /** For a long with its stop below the entry, the trade is held exactly between the stop and a take-profit 1.7 risks above the entry. */
  lemma FractalLongHoldBand(entry: real, price: real, stop: real)
    requires stop < entry
    ensures FractalExit(Long, entry, price, stop) == Hold <==> stop < price < entry + 1.7 * (entry - stop)
  {
  }

  /** For a short with its stop above the entry, the trade is held exactly between a take-profit 1.7 risks below the entry and the stop. */
  lemma FractalShortHoldBand(entry: real, price: real, stop: real)
    requires stop > entry
    ensures FractalExit(Short, entry, price, stop) == Hold <==> entry - 1.7 * (stop - entry) < price < stop
  {
  }
}
