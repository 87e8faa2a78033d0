/**
 * A client of the strategy class: what a caller can conclude from the
 * contracts alone about an entry order that does not fill at once.
 */
module Scenarios {
  import opened Wrappers
  import opened Model
  import opened CandleSeries
  import opened Signals
  import opened Strategies

  /**
   * A Dummy activation on futures with a balance to size from opens a long
   * whose order is still pending: the trade has no entry price and a poll
   * is scheduled for the order. A poll without an answer changes nothing;
   * a poll answering "filled" backfills the fill price.
   */
  method PendingFillScenario(avg: real, qty: real) returns (pending: Option<real>, afterSilentPoll: Option<real>, filled: Option<real>)
    ensures pending.None? && afterSilentPoll.None?
    ensures filled == Some(avg)
  {
    var s := new Strategy(Client("binance_futures", true), Contract("BTCUSDT", "BTC", "USDT", 0.001), "1m", Dummy(10.0));
    s.candles := [Opened(0, 100.0, 1.0), Opened(60000, 100.0, 1.0)];
    var balances := Some(map["USDT" := Balance(10000.0, 10000.0)]);
    var ind := Indicators(50.0, 0.0, 0.0, 0.0, 0.0, 0.0);
    var accepted := OrderStatus(7, "new", 0.0, 0.0);
    var placed, poll := s.CheckTrade(NewCandle, ind, balances, None, Some(accepted), 120000);
    assert placed.Some?;
    assert poll == Some(7);
    pending := s.trades[0].entryPrice;
    var again := s.CheckOrderStatus(7, None);
    assert again;
    afterSilentPoll := s.trades[0].entryPrice;
    again := s.CheckOrderStatus(7, Some(OrderStatus(7, FILLED, avg, qty)));
    assert !again;
    filled := s.trades[0].entryPrice;
  }
}
