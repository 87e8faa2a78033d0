/**
 * Facts about a trade list used by the position invariant: how many trades
 * are open, which is the first open one, which is the first with a given
 * entry order id, and how an exit changes a trade.
 */
module TradeLog {
  import opened Wrappers
  import opened Model
  import opened CandleSeries

  function IsOpen(t: Trade): nat { if t.status == Open then 1 else 0 }

  /** The number of trades whose status is open. */
  function OpenCount(s: seq<Trade>): (n: nat)
    ensures n <= |s|
  {
    if s == [] then 0 else OpenCount(s[..|s| - 1]) + IsOpen(s[|s| - 1])
  }

  lemma OpenCountAppend(s: seq<Trade>, t: Trade)
    ensures OpenCount(s + [t]) == OpenCount(s) + IsOpen(t)
  {
    assert (s + [t])[..|s|] == s;
  }

  /** Replacing one trade changes the count by exactly what that trade contributes. */
  lemma {:induction false} OpenCountUpdate(s: seq<Trade>, i: nat, t: Trade)
    requires i < |s|
    ensures OpenCount(s[i := t]) == OpenCount(s) - IsOpen(s[i]) + IsOpen(t)
    decreases |s|
  {
    var n := |s| - 1;
    if i < n {
      assert s[i := t][..n] == s[..n][i := t];
      OpenCountUpdate(s[..n], i, t);
    } else {
      assert s[i := t][..n] == s[..n];
    }
  }

  /** Two distinct open trades make the count at least two. */
  lemma {:induction false} OpenCountTwo(s: seq<Trade>, i: nat, j: nat)
    requires i < j < |s| && s[i].status == Open && s[j].status == Open
    ensures OpenCount(s) >= 2
    decreases |s|
  {
    var n := |s| - 1;
    if j < n {
      OpenCountTwo(s[..n], i, j);
    } else {
      OpenCountOne(s[..n], i);
    }
  }

  /** One open trade makes the count at least one. */
  lemma {:induction false} OpenCountOne(s: seq<Trade>, i: nat)
    requires i < |s| && s[i].status == Open
    ensures OpenCount(s) >= 1
    decreases |s|
  {
    var n := |s| - 1;
    if i < n {
      OpenCountOne(s[..n], i);
    }
  }

  /** The index of the first open trade, or `|s|` when none is open. */
  function FirstOpen(s: seq<Trade>): (r: nat)
    ensures r <= |s|
    ensures r < |s| ==> s[r].status == Open
    ensures forall k :: 0 <= k < r ==> s[k].status != Open
  {
    if s == [] then 0
    else if s[0].status == Open then 0
    else 1 + FirstOpen(s[1..])
  }

  /** With at most one open trade, every trade other than the first open one is closed. */
  lemma OnlyFirstOpen(s: seq<Trade>, k: nat)
    requires OpenCount(s) <= 1 && k < |s| && k != FirstOpen(s)
    ensures s[k].status != Open
  {
    var j := FirstOpen(s);
    if s[k].status == Open {
      assert j < k;
      OpenCountTwo(s, j, k);
    }
  }

  /** The index of the first trade whose entry order is `id`, or `|s|` when there is none. */
  function FirstWithId(s: seq<Trade>, id: int): (r: nat)
    ensures r <= |s|
    ensures r < |s| ==> s[r].entryId == id
    ensures forall k :: 0 <= k < r ==> s[k].entryId != id
  {
    if s == [] then 0
    else if s[0].entryId == id then 0
    else 1 + FirstWithId(s[1..], id)
  }

  /** The order side that exits a position: sell a long, buy back a short. */
  function ExitSide(side: Side): (r: OrderSide)
    ensures r == Sell <==> side == Long
  {
    if side == Long then Sell else Buy
  }

  /**
   * The exit quantity. A spot client selling whose balance query answered
   * with the base asset never sells more than the free base balance; in
   * every other case the trade's quantity is used.
   */
  function ExitQuantity(t: Trade, futures: bool, baseAsset: string, balances: Option<Balances>): (q: real)
    ensures q <= t.quantity
    ensures !futures && t.side == Long && balances.Some? && baseAsset in balances.value
            ==> q == Min(balances.value[baseAsset].free, t.quantity)
    ensures futures || t.side == Short || balances.None? || baseAsset !in balances.value ==> q == t.quantity
  {
    if !futures && balances.Some? && ExitSide(t.side) == Sell && baseAsset in balances.value
    then Min(balances.value[baseAsset].free, t.quantity)
    else t.quantity
  }

  /**
   * The trade after an exit attempt: the quantity is the exit quantity even
   * if the order fails, and the trade is closed only if the exchange
   * answered the exit order.
   */
  function AfterExit(t: Trade, q: real, reply: Option<OrderStatus>): (r: Trade)
    ensures r.quantity == q
    ensures r.status == (if reply.Some? then Closed else t.status)
    ensures r.entryPrice == t.entryPrice && r.side == t.side && r.entryId == t.entryId
    ensures r.time == t.time && r.pnl == t.pnl
  {
    t.(quantity := q, status := if reply.Some? then Closed else t.status)
  }

  /** The trade a placed entry order creates; its entry price is known only if the order filled at once. */
  function EntryTrade(side: Side, reply: OrderStatus, now: int): (r: Trade)
    ensures r.status == Open && r.pnl == 0.0 && r.side == side && r.time == now
    ensures r.entryId == reply.orderId && r.quantity == reply.executedQty
    ensures r.entryPrice == (if reply.status == FILLED then Some(reply.avgPrice) else None)
  {
    Trade(now, if reply.status == FILLED then Some(reply.avgPrice) else None, side, Open, 0.0, reply.executedQty, reply.orderId)
  }
}
