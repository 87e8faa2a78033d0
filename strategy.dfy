/**
 * One strategy activation: the candle series it owns, its trades, whether a
 * position is ongoing, and (for the Fractal variant) its stop lists. The
 * four variants of the source are one class dispatching on `kind`.
 * Exchange calls are parameters holding the exchange's answer: a balance
 * query, an order placement, an order-status query and the client's own
 * trade sizing each give an `Option`, None standing for the call's `None`.
 */
module Strategies {
  import opened Wrappers
  import opened Model
  import opened CandleSeries
  import opened Sizing
  import opened Signals
  import opened TradeLog

  function SideOf(signal: int): Side { if signal == 1 then Long else Short }

  /** The Fractal stop list a trade of this side reads is not empty. */
  predicate StopAvailable(side: Side, longs: seq<real>, shorts: seq<real>)
  {
    if side == Long then |longs| > 0 else |shorts| > 0
  }

  /** Only open trades with a known entry price are checked for an exit. */
  predicate Eligible(t: Trade) { t.status == Open && t.entryPrice.Some? }

  /**
   * The exit rule of each variant for a trade at `price`: percentage levels
   * for Technical and Breakout, the latest fractal stop and its 1.7 reward
   * for Fractal, none for Dummy.
   */
  function ExitRule(kind: Kind, price: real, longs: seq<real>, shorts: seq<real>, t: Trade): (r: Exit)
    requires t.entryPrice.Some?
    requires kind.Fractal? ==> StopAvailable(t.side, longs, shorts)
    ensures kind.Dummy? ==> r == Hold
    ensures kind.Technical? || kind.Breakout? ==>
              r == PercentExit(t.side, t.entryPrice.value, price, kind.stopLossPct, kind.takeProfitPct)
    ensures kind.Fractal? && t.side == Long ==> r == FractalExit(Long, t.entryPrice.value, price, longs[|longs| - 1])
    ensures kind.Fractal? && t.side == Short ==> r == FractalExit(Short, t.entryPrice.value, price, shorts[|shorts| - 1])
  {
    match kind
    case Technical(_, _, _, _, sl, tp, _) => PercentExit(t.side, t.entryPrice.value, price, sl, tp)
    case Breakout(_, sl, tp, _) => PercentExit(t.side, t.entryPrice.value, price, sl, tp)
    case Fractal(_, _, _, _, _) =>
      var stop := if t.side == Long then longs[|longs| - 1] else shorts[|shorts| - 1];
      FractalExit(t.side, t.entryPrice.value, price, stop)
    case Dummy(_) => Hold
  }

  /** What sizing needs: a non-zero price for the Dummy rule, a stop distinct from the price for the Fractal rule. */
  predicate CanSize(kind: Kind, close: real, longs: seq<real>, shorts: seq<real>, signal: int)
  {
    && (kind.Dummy? ==> close != 0.0)
    && (kind.Fractal? ==>
          StopAvailable(SideOf(signal), longs, shorts)
          && close != (if signal == 1 then longs[|longs| - 1] else shorts[|shorts| - 1]))
  }

  /**
   * The entry size of each variant: Dummy sizes on its balance percentage,
   * Fractal on its risk percentage and the latest stop of the signal's
   * side, Technical and Breakout take the client's own sizing.
   */
  function EntrySize(kind: Kind, contract: Contract, futures: bool, close: real,
                     longs: seq<real>, shorts: seq<real>, signal: int,
                     balances: Option<Balances>, clientSize: Option<real>): (r: Option<real>)
    requires contract.lotSize > 0.0
    requires CanSize(kind, close, longs, shorts, signal)
    ensures kind.Technical? || kind.Breakout? ==> r == clientSize
    ensures kind.Dummy? || kind.Fractal? ==>
              (r.None? <==> ResolveBalance(balances, contract.quoteAsset, futures).None?)
    ensures kind.Dummy? || kind.Fractal? ==> r.Some? ==> IsLotMultiple(r.value, contract.lotSize)
    ensures kind.Dummy? ==> r == PctTradeSize(balances, contract, futures, kind.balancePct, close)
    ensures kind.Fractal? ==>
              r == RiskTradeSize(balances, contract, futures, kind.riskPct, close,
                                 if signal == 1 then longs[|longs| - 1] else shorts[|shorts| - 1])
  {
    match kind
    case Dummy(pct) => PctTradeSize(balances, contract, futures, pct, close)
    case Fractal(_, _, _, _, risk) =>
      var stop := if signal == 1 then longs[|longs| - 1] else shorts[|shorts| - 1];
      RiskTradeSize(balances, contract, futures, risk, close, stop)
    case Technical(_, _, _, _, _, _, _) => clientSize
    case Breakout(_, _, _, _) => clientSize
  }

  lemma MulStep(i: int, tf: int)
    ensures i * tf + tf == (i + 1) * tf
  {
  }

  lemma DivOne(d: int, tf: int)
    requires 0 < tf <= d < 2 * tf
    ensures d / tf == 1
  {
  }

  class Strategy {
    const client: Client
    const contract: Contract
    const timeframe: string
    /** The candle width in ms. */
    const tfEquiv: nat
    const kind: Kind

    var ongoingPosition: bool
    var candles: seq<Candle>
    var trades: seq<Trade>
    var stopListLong: seq<real>
    var stopListShort: seq<real>

    /** The position invariant: a position is ongoing iff exactly one trade is open, and never more than one is. */
    ghost predicate Valid()
      reads this
    {
      && tfEquiv > 0
      && contract.lotSize > 0.0
      && OpenCount(trades) == (if ongoingPosition then 1 else 0)
    }

    /** Every open Fractal trade has a stop to read for its side. */
    ghost predicate StopsReady()
      reads this
    {
      kind.Fractal? ==>
        forall k :: 0 <= k < |trades| && trades[k].status == Open ==>
          StopAvailable(trades[k].side, stopListLong, stopListShort)
    }

    predicate IsSpot() { client.platform == SPOT_PLATFORM }

    constructor (client: Client, contract: Contract, timeframe: string, kind: Kind)
      requires IntervalMs(timeframe).Some?
      requires contract.lotSize > 0.0
      ensures Valid() && StopsReady()
      ensures this.client == client && this.contract == contract && this.kind == kind
      ensures this.timeframe == timeframe && tfEquiv == IntervalMs(timeframe).value
      ensures !ongoingPosition && candles == [] && trades == []
      ensures stopListLong == [] && stopListShort == []
    {
      this.client := client;
      this.contract := contract;
      this.timeframe := timeframe;
      this.tfEquiv := IntervalMs(timeframe).value;
      this.kind := kind;
      ongoingPosition := false;
      candles := [];
      trades := [];
      stopListLong := [];
      stopListShort := [];
    }

    /**
     * Sends the exit order of trade `i`: sells a long, buys back a short,
     * after clamping a spot sell to the free base balance (kept even if the
     * order fails). The trade is closed and the position cleared only if the
     * exchange answered.
     */
    method ClosePosition(i: nat, balances: Option<Balances>, reply: Option<OrderStatus>) returns (order: Order)
      requires Valid() && StopsReady()
      requires i < |trades| && trades[i].status == Open
      modifies this
      ensures order.side == ExitSide(old(trades[i]).side)
      ensures order.quantity == ExitQuantity(old(trades[i]), client.futures, contract.baseAsset, balances)
      ensures trades == old(trades)[i := AfterExit(old(trades[i]), order.quantity, reply)]
      ensures ongoingPosition == reply.None?
      ensures candles == old(candles) && stopListLong == old(stopListLong) && stopListShort == old(stopListShort)
      ensures Valid() && StopsReady()
    {
      OpenCountOne(trades, i);
      var t := trades[i];
      var q := ExitQuantity(t, client.futures, contract.baseAsset, balances);
      order := Order(ExitSide(t.side), q);
      trades := trades[i := AfterExit(t, q, reply)];
      OpenCountUpdate(old(trades), i, AfterExit(t, q, reply));
      if reply.Some? {
        ongoingPosition := false;
      }
    }

    /**
     * The exit check for an open trade with a known entry price, at the last
     * close: if the variant's rule fires, the trade's exit order is sent.
     */
    method CheckTpSl(i: nat, balances: Option<Balances>, reply: Option<OrderStatus>) returns (exit: Exit, order: Option<Order>)
      requires Valid() && StopsReady() && |candles| > 0
      requires i < |trades| && Eligible(trades[i])
      modifies this
      ensures candles == old(candles) && stopListLong == old(stopListLong) && stopListShort == old(stopListShort)
      ensures exit == ExitRule(kind, candles[|candles| - 1].close, stopListLong, stopListShort, old(trades[i]))
      ensures exit == Hold ==> order.None? && trades == old(trades) && ongoingPosition == old(ongoingPosition)
      ensures exit != Hold ==>
                && order == Some(Order(ExitSide(old(trades[i]).side),
                                       ExitQuantity(old(trades[i]), client.futures, contract.baseAsset, balances)))
                && trades == old(trades)[i := AfterExit(old(trades[i]), order.value.quantity, reply)]
                && ongoingPosition == reply.None?
      ensures Valid() && StopsReady()
    {
      exit := ExitRule(kind, candles[|candles| - 1].close, stopListLong, stopListShort, trades[i]);
      if exit == Hold {
        order := None;
      } else {
        var o := ClosePosition(i, balances, reply);
        order := Some(o);
      }
    }

    /**
     * The sweep after a tick inside the last candle: every open trade with a
     * known entry price gets its exit check. Under the position invariant
     * that is at most the first open trade.
     */
    method CheckOpenTrades(balances: Option<Balances>, reply: Option<OrderStatus>) returns (exitOrder: Option<Order>)
      requires Valid() && StopsReady() && |candles| > 0
      modifies this
      ensures candles == old(candles) && stopListLong == old(stopListLong) && stopListShort == old(stopListShort)
      ensures var j := FirstOpen(old(trades));
              if j < |old(trades)| && Eligible(old(trades)[j])
                 && ExitRule(kind, candles[|candles| - 1].close, stopListLong, stopListShort, old(trades)[j]) != Hold
              then
                && exitOrder == Some(Order(ExitSide(old(trades)[j].side),
                                           ExitQuantity(old(trades)[j], client.futures, contract.baseAsset, balances)))
                && trades == old(trades)[j := AfterExit(old(trades)[j], exitOrder.value.quantity, reply)]
                && ongoingPosition == reply.None?
              else
                exitOrder.None? && trades == old(trades) && ongoingPosition == old(ongoingPosition)
      ensures Valid() && StopsReady()
    {
      exitOrder := None;
      ghost var j := FirstOpen(trades);
      forall k | 0 <= k < |trades| && k != j
        ensures trades[k].status != Open
      {
        OnlyFirstOpen(trades, k);
      }
      var i := 0;
      while i < |trades|
        invariant 0 <= i <= |trades| == |old(trades)|
        invariant candles == old(candles) && stopListLong == old(stopListLong) && stopListShort == old(stopListShort)
        invariant Valid() && StopsReady()
        invariant forall k :: 0 <= k < |trades| && k != j ==> trades[k] == old(trades)[k] && trades[k].status != Open
        invariant i <= j ==> exitOrder.None? && trades == old(trades) && ongoingPosition == old(ongoingPosition)
        invariant i > j ==>
          if Eligible(old(trades)[j])
             && ExitRule(kind, candles[|candles| - 1].close, stopListLong, stopListShort, old(trades)[j]) != Hold
          then
            && exitOrder == Some(Order(ExitSide(old(trades)[j].side),
                                       ExitQuantity(old(trades)[j], client.futures, contract.baseAsset, balances)))
            && trades == old(trades)[j := AfterExit(old(trades)[j], exitOrder.value.quantity, reply)]
            && ongoingPosition == reply.None?
          else
            exitOrder.None? && trades == old(trades) && ongoingPosition == old(ongoingPosition)
      {
        if trades[i].status == Open && trades[i].entryPrice.Some? {
          var exit, order := CheckTpSl(i, balances, reply);
          exitOrder := order;
        }
        i := i + 1;
      }
    }

    /**
     * Folds one trade tick into the candle series, as `Ingest` specifies;
     * a tick inside the last candle then runs the exit sweep at the new close.
     */
    method ParseTrades(price: real, size: real, timestamp: int, balances: Option<Balances>, reply: Option<OrderStatus>)
      returns (tick: TickKind, exitOrder: Option<Order>)
      requires Valid() && StopsReady() && |candles| > 0
      modifies this
      ensures stopListLong == old(stopListLong) && stopListShort == old(stopListShort)
      ensures (candles, tick) == Ingest(old(candles), tfEquiv, price, size, timestamp)
      ensures tick == NewCandle ==> exitOrder.None? && trades == old(trades) && ongoingPosition == old(ongoingPosition)
      ensures tick == SameCandle ==>
                var j := FirstOpen(old(trades));
                if j < |old(trades)| && Eligible(old(trades)[j])
                   && ExitRule(kind, price, stopListLong, stopListShort, old(trades)[j]) != Hold
                then
                  && exitOrder == Some(Order(ExitSide(old(trades)[j].side),
                                             ExitQuantity(old(trades)[j], client.futures, contract.baseAsset, balances)))
                  && trades == old(trades)[j := AfterExit(old(trades)[j], exitOrder.value.quantity, reply)]
                  && ongoingPosition == reply.None?
                else
                  exitOrder.None? && trades == old(trades) && ongoingPosition == old(ongoingPosition)
      ensures Valid() && StopsReady()
    {
      var last := candles[|candles| - 1];
      if timestamp < last.timestamp + tfEquiv {
        candles := candles[..|candles| - 1] + [Absorb(last, price, size)];
        exitOrder := CheckOpenTrades(balances, reply);
        tick := SameCandle;
      } else {
        AppendCandles(price, size, timestamp);
        exitOrder := None;
        tick := NewCandle;
      }
    }

    /**
     * A tick at or past the end of the last candle's interval: one flat
     * candle for each interval skipped, then the candle the tick opens.
     */
    method AppendCandles(price: real, size: real, timestamp: int)
      requires tfEquiv > 0 && |candles| > 0
      requires timestamp >= candles[|candles| - 1].timestamp + tfEquiv
      modifies this`candles
      ensures candles == Ingest(old(candles), tfEquiv, price, size, timestamp).0
    {
      var last := candles[|candles| - 1];
      ghost var first := last;
      ghost var k := (timestamp - first.timestamp) / tfEquiv;
      assert Ingest(old(candles), tfEquiv, price, size, timestamp).0
          == old(candles) + GapCandles(first, tfEquiv, k - 1) + [Opened(first.timestamp + k * tfEquiv, price, size)];
      if timestamp >= last.timestamp + 2 * tfEquiv {
        var missing := (timestamp - last.timestamp) / tfEquiv - 1;
        var i := 0;
        while i < missing
          invariant 0 <= i <= missing
          invariant candles == old(candles) + GapCandles(first, tfEquiv, i)
          invariant last.timestamp == first.timestamp + i * tfEquiv && last.close == first.close
        {
          var flat := Flat(last.timestamp + tfEquiv, last.close);
          MulStep(i, tfEquiv);
          candles := candles + [flat];
          last := flat;
          i := i + 1;
        }
        MulStep(missing, tfEquiv);
        assert last.timestamp + tfEquiv == first.timestamp + k * tfEquiv;
        candles := candles + [Opened(last.timestamp + tfEquiv, price, size)];
      } else {
        DivOne(timestamp - last.timestamp, tfEquiv);
        assert GapCandles(first, tfEquiv, k - 1) == [];
        candles := candles + [Opened(last.timestamp + tfEquiv, price, size)];
      }
    }

    /**
     * The common entry: a spot client never opens a short. Otherwise the
     * market order is sent; if the exchange answered, the position becomes
     * ongoing and one open trade is appended, priced only if the order
     * filled at once, and a status poll is scheduled for an unfilled order.
     */
    method PlaceEntry(signal: int, tradeSize: real, reply: Option<OrderStatus>, now: int)
      returns (placed: Option<Order>, poll: Option<int>)
      requires Valid() && StopsReady() && !ongoingPosition
      requires kind.Fractal? ==> StopAvailable(SideOf(signal), stopListLong, stopListShort)
      modifies this`trades, this`ongoingPosition
      ensures IsSpot() && signal == -1 ==> placed.None?
      ensures !(IsSpot() && signal == -1) ==>
                placed == Some(Order(if signal == 1 then Buy else Sell, tradeSize))
      ensures if placed.Some? && reply.Some? then
                && ongoingPosition
                && trades == old(trades) + [EntryTrade(SideOf(signal), reply.value, now)]
                && poll == (if reply.value.status == FILLED then None else Some(reply.value.orderId))
              else
                !ongoingPosition && trades == old(trades) && poll.None?
      ensures Valid() && StopsReady()
    {
      placed, poll := None, None;
      if IsSpot() && signal == -1 {
        return;
      }
      var side := if signal == 1 then Buy else Sell;
      placed := Some(Order(side, tradeSize));
      if reply.Some? {
        var status := reply.value;
        ongoingPosition := true;
        if status.status != FILLED {
          poll := Some(status.orderId);
        }
        OpenCountAppend(trades, EntryTrade(SideOf(signal), status, now));
        trades := trades + [EntryTrade(SideOf(signal), status, now)];
      }
    }

    /**
     * The variant's entry: size the trade at the last close, give up
     * silently when the size is unavailable, else enter as `PlaceEntry`.
     */
    method OpenPosition(signal: int, balances: Option<Balances>, clientSize: Option<real>,
                        reply: Option<OrderStatus>, now: int)
      returns (placed: Option<Order>, poll: Option<int>)
      requires Valid() && StopsReady() && !ongoingPosition && |candles| > 0
      requires signal == 1 || signal == -1
      requires CanSize(kind, candles[|candles| - 1].close, stopListLong, stopListShort, signal)
      modifies this`trades, this`ongoingPosition
      ensures var size := EntrySize(kind, contract, client.futures, candles[|candles| - 1].close,
                                    stopListLong, stopListShort, signal, balances, clientSize);
              && (size.None? || (IsSpot() && signal == -1) <==> placed.None?)
              && (placed.Some? ==> placed == Some(Order(if signal == 1 then Buy else Sell, size.value)))
      ensures if placed.Some? && reply.Some? then
                && ongoingPosition
                && trades == old(trades) + [EntryTrade(SideOf(signal), reply.value, now)]
                && poll == (if reply.value.status == FILLED then None else Some(reply.value.orderId))
              else
                !ongoingPosition && trades == old(trades) && poll.None?
      ensures Valid() && StopsReady()
    {
      var size := EntrySize(kind, contract, client.futures, candles[|candles| - 1].close,
                            stopListLong, stopListShort, signal, balances, clientSize);
      if size.None? {
        placed, poll := None, None;
        return;
      }
      placed, poll := PlaceEntry(signal, size.value, reply, now);
    }

    /**
     * On a tick that opened a candle and with no position ongoing, evaluate
     * the signal and open on a long or short one; otherwise do nothing.
     */
    method CheckTrade(tick: TickKind, ind: Indicators, balances: Option<Balances>, clientSize: Option<real>,
                      reply: Option<OrderStatus>, now: int)
      returns (placed: Option<Order>, poll: Option<int>)
      requires Valid() && StopsReady() && |candles| >= 2
      requires tick == NewCandle && !ongoingPosition && Signal(kind, candles, ind) != 0 ==>
                 CanSize(kind, candles[|candles| - 1].close, stopListLong, stopListShort, Signal(kind, candles, ind))
      modifies this`trades, this`ongoingPosition
      ensures placed.Some? ==> tick == NewCandle && !old(ongoingPosition) && Signal(kind, candles, ind) != 0
      ensures tick == SameCandle || old(ongoingPosition) || Signal(kind, candles, ind) == 0 ==>
                placed.None? && poll.None? && trades == old(trades) && ongoingPosition == old(ongoingPosition)
      ensures tick == NewCandle && !old(ongoingPosition) && Signal(kind, candles, ind) != 0 ==>
                var signal := Signal(kind, candles, ind);
                var size := EntrySize(kind, contract, client.futures, candles[|candles| - 1].close,
                                      stopListLong, stopListShort, signal, balances, clientSize);
                && (placed.None? <==> size.None? || (IsSpot() && signal == -1))
                && (placed.Some? ==> placed == Some(Order(if signal == 1 then Buy else Sell, size.value)))
      ensures placed.Some? && reply.Some? ==>
                && ongoingPosition
                && trades == old(trades) + [EntryTrade(SideOf(Signal(kind, candles, ind)), reply.value, now)]
                && poll == (if reply.value.status == FILLED then None else Some(reply.value.orderId))
      ensures !(placed.Some? && reply.Some?) ==>
                poll.None? && trades == old(trades) && ongoingPosition == old(ongoingPosition)
      ensures Valid() && StopsReady()
    {
      placed, poll := None, None;
      if tick == NewCandle && !ongoingPosition {
        var signal := Signal(kind, candles, ind);
        if signal == -1 || signal == 1 {
          placed, poll := OpenPosition(signal, balances, clientSize, reply, now);
        }
      }
    }

    /**
     * One poll of an unfilled entry order. A filled status backfills the
     * entry price and quantity of the first trade with that entry id and
     * stops polling; no answer or any other status polls again.
     */
    method CheckOrderStatus(orderId: int, reply: Option<OrderStatus>) returns (pollAgain: bool)
      requires Valid() && StopsReady()
      modifies this`trades
      ensures pollAgain <==> !(reply.Some? && reply.value.status == FILLED)
      ensures pollAgain ==> trades == old(trades)
      ensures !pollAgain ==>
                var j := FirstWithId(old(trades), orderId);
                if j < |old(trades)| then
                  trades == old(trades)[j := old(trades)[j].(entryPrice := Some(reply.value.avgPrice),
                                                              quantity := reply.value.executedQty)]
                else trades == old(trades)
      ensures Valid() && StopsReady()
    {
      if reply.Some? && reply.value.status == FILLED {
        var status := reply.value;
        var i := 0;
        while i < |trades|
          invariant 0 <= i <= |trades| && trades == old(trades)
          invariant forall k :: 0 <= k < i ==> trades[k].entryId != orderId
        {
          if trades[i].entryId == orderId {
            var t := trades[i].(entryPrice := Some(status.avgPrice), quantity := status.executedQty);
            OpenCountUpdate(trades, i, t);
            trades := trades[i := t];
            break;
          }
          i := i + 1;
        }
        return false;
      }
      return true;
    }

    /**
     * Fractal stop bookkeeping over the last four candles: while no position
     * is ongoing, a bullish fractal's stop is appended to the long list, or
     * else a bearish one's to the short list; a stop of zero counts as none.
     */
    method StopList() returns (stop: Option<real>)
      requires Valid() && StopsReady() && |candles| >= 4
      modifies this`stopListLong, this`stopListShort
      ensures ongoingPosition ==> stop.None? && stopListLong == old(stopListLong) && stopListShort == old(stopListShort)
      ensures !ongoingPosition ==>
                var up, down := FractalBullish(candles), FractalBearish(candles);
                if Truthy(up) then
                  stop == up && stopListLong == old(stopListLong) + [up.value] && stopListShort == old(stopListShort)
                else if Truthy(down) then
                  stop == down && stopListShort == old(stopListShort) + [down.value] && stopListLong == old(stopListLong)
                else
                  stop.None? && stopListLong == old(stopListLong) && stopListShort == old(stopListShort)
      ensures Valid() && StopsReady()
    {
      stop := None;
      if !ongoingPosition {
        var up := FractalBullish(candles);
        var down := FractalBearish(candles);
        if Truthy(up) {
          stopListLong := stopListLong + [up.value];
          stop := Some(stopListLong[|stopListLong| - 1]);
        } else if Truthy(down) {
          stopListShort := stopListShort + [down.value];
          stop := Some(stopListShort[|stopListShort| - 1]);
        }
      }
    }
  }
}
