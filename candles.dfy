/**
 * The candle aggregator as functions: how one trade tick changes the candle
 * series of one instrument and timeframe. `Strategies.Strategy.ParseTrades`
 * performs this change in place and is proved to agree with `Ingest`.
 */
module CandleSeries {
  import opened Model

  function Max(a: real, b: real): real { if a >= b then a else b }
  function Min(a: real, b: real): real { if a <= b then a else b }

  /** A candle whose range holds its open and its close. */
  predicate WellFormed(c: Candle)
  {
    c.low <= c.open <= c.high && c.low <= c.close <= c.high
  }

  predicate AllWellFormed(s: seq<Candle>)
  {
    forall i :: 0 <= i < |s| ==> WellFormed(s[i])
  }

  /** Consecutive candles start exactly one interval apart: the series has no gap. */
  predicate Contiguous(s: seq<Candle>, tf: nat)
  {
    forall i :: 1 <= i < |s| ==> s[i].timestamp == s[i - 1].timestamp + tf
  }

  /**
   * A tick inside the last candle's interval: the close becomes the price,
   * the volume grows by the size, and the range is widened by an
   * `if`/`else if` pair, which widens it correctly only when `low <= high`.
   */
  function Absorb(c: Candle, price: real, size: real): (r: Candle)
    ensures r.timestamp == c.timestamp && r.open == c.open
    ensures r.close == price && r.volume == c.volume + size
    ensures c.low <= c.high ==> r.high == Max(c.high, price) && r.low == Min(c.low, price)
    ensures WellFormed(c) ==> WellFormed(r)
  {
    var moved := c.(close := price, volume := c.volume + size);
    if price > c.high then moved.(high := price)
    else if price < c.low then moved.(low := price)
    else moved
  }

  /** A synthetic candle for an interval without ticks: flat at `close`, no volume. */
  function Flat(timestamp: int, close: real): Candle
  {
    Candle(timestamp, close, close, close, close, 0.0)
  }

  /** The candle opened by a tick that crosses an interval boundary. */
  function Opened(timestamp: int, price: real, size: real): Candle
  {
    Candle(timestamp, price, price, price, price, size)
  }

  /** The `n` flat candles that fill the intervals after `last` in which no tick arrived. */
  function GapCandles(last: Candle, tf: nat, n: nat): (r: seq<Candle>)
    ensures |r| == n
    ensures forall j :: 0 <= j < n ==> r[j] == Flat(last.timestamp + (j + 1) * tf, last.close)
  {
    if n == 0 then [] else GapCandles(last, tf, n - 1) + [Flat(last.timestamp + n * tf, last.close)]
  }

  /**
   * The series after one tick, and whether the tick stayed in the last
   * candle. A tick before the end of the last interval updates the last
   * candle; otherwise `k` boundaries were crossed and `k` candles are
   * appended: `k - 1` flat ones, then the one the tick opens. The source
   * computes `k - 1` by dividing as floats and truncating; the quotient is
   * positive there, so this is the floor that `/` gives.
   */
  function Ingest(s: seq<Candle>, tf: nat, price: real, size: real, ts: int): (r: (seq<Candle>, TickKind))
    requires |s| > 0 && tf > 0
    ensures r.1 == SameCandle <==> ts < s[|s| - 1].timestamp + tf
    ensures |r.0| >= |s| && r.0[..|s| - 1] == s[..|s| - 1]
    ensures r.1 == SameCandle ==> |r.0| == |s| && r.0[|s| - 1] == Absorb(s[|s| - 1], price, size)
    ensures r.1 == NewCandle ==> r.0[..|s|] == s
  {
    var last := s[|s| - 1];
    if ts < last.timestamp + tf then
      (s[..|s| - 1] + [Absorb(last, price, size)], SameCandle)
    else
      var k := (ts - last.timestamp) / tf;
      (s + GapCandles(last, tf, k - 1) + [Opened(last.timestamp + k * tf, price, size)], NewCandle)
  }

  /** Euclidean division facts for a positive divisor, used to place the tick. */
  lemma DivBounds(d: int, tf: nat)
    requires tf > 0 && d >= 0
    ensures (d / tf) * tf <= d < (d / tf + 1) * tf
  {
  }

  /**
   * A tick that crosses a boundary appends exactly `(ts - last.timestamp) / tf`
   * candles, stepping by `tf` from the old last candle: the flat ones carry
   * the old close and no volume, the last one is the tick's price and size,
   * and its interval contains the tick.
   */
  lemma {:induction false} IngestNewCandle(s: seq<Candle>, tf: nat, price: real, size: real, ts: int)
    requires |s| > 0 && tf > 0
    requires ts >= s[|s| - 1].timestamp + tf
    ensures var r := Ingest(s, tf, price, size, ts).0;
            var last := s[|s| - 1];
            var k := (ts - last.timestamp) / tf;
            && k >= 1
            && |r| == |s| + k
            && r[..|s|] == s
            && (forall j :: |s| <= j < |r| ==> r[j].timestamp == last.timestamp + (j - |s| + 1) * tf)
            && (forall j :: |s| <= j < |r| - 1 ==> r[j] == Flat(r[j].timestamp, last.close))
            && r[|r| - 1] == Opened(r[|r| - 1].timestamp, price, size)
            && r[|r| - 1].timestamp <= ts < r[|r| - 1].timestamp + tf
  {
    var r := Ingest(s, tf, price, size, ts).0;
    var last := s[|s| - 1];
    var k := (ts - last.timestamp) / tf;
    DivBounds(ts - last.timestamp, tf);
    assert k >= 1;
    var gap := GapCandles(last, tf, k - 1);
    assert r == s + gap + [Opened(last.timestamp + k * tf, price, size)];
    forall j | |s| <= j < |r|
      ensures r[j].timestamp == last.timestamp + (j - |s| + 1) * tf
    {
      if j < |r| - 1 {
        assert r[j] == gap[j - |s|];
      }
    }
  }

  /** Ingesting a tick keeps a gap-free series gap-free. */
  lemma {:induction false} IngestKeepsContiguous(s: seq<Candle>, tf: nat, price: real, size: real, ts: int)
    requires |s| > 0 && tf > 0
    requires Contiguous(s, tf)
    ensures Contiguous(Ingest(s, tf, price, size, ts).0, tf)
  {
    var r := Ingest(s, tf, price, size, ts).0;
    if ts < s[|s| - 1].timestamp + tf {
      forall i | 1 <= i < |r|
        ensures r[i].timestamp == r[i - 1].timestamp + tf
      {
        assert r[i - 1] == s[i - 1];
        if i < |s| - 1 {
          assert r[i] == s[i];
        }
      }
    } else {
      IngestNewCandle(s, tf, price, size, ts);
      forall i | 1 <= i < |r|
        ensures r[i].timestamp == r[i - 1].timestamp + tf
      {
        if i < |s| {
          assert r[i] == s[i] && r[i - 1] == s[i - 1];
        } else if i == |s| {
          assert r[i - 1] == s[|s| - 1];
        } else {
          assert r[i - 1].timestamp == s[|s| - 1].timestamp + (i - |s|) * tf;
        }
      }
    }
  }

  /** Ingesting a tick keeps every candle's open and close inside its range. */
  lemma {:induction false} IngestKeepsWellFormed(s: seq<Candle>, tf: nat, price: real, size: real, ts: int)
    requires |s| > 0 && tf > 0
    requires AllWellFormed(s)
    ensures AllWellFormed(Ingest(s, tf, price, size, ts).0)
  {
    var r := Ingest(s, tf, price, size, ts).0;
    if ts < s[|s| - 1].timestamp + tf {
      forall i | 0 <= i < |r|
        ensures WellFormed(r[i])
      {
        if i < |s| - 1 {
          assert r[i] == s[i];
        }
      }
    } else {
      IngestNewCandle(s, tf, price, size, ts);
      forall i | 0 <= i < |r|
        ensures WellFormed(r[i])
      {
        if i < |s| {
          assert r[i] == s[i];
        }
      }
    }
  }

  /** A tick stream: each element is (price, size, timestamp). */
  datatype Tick = Tick(price: real, size: real, timestamp: int)

  /** The series after feeding a whole stream of ticks, one by one. */
  function IngestAll(s: seq<Candle>, tf: nat, ticks: seq<Tick>): (r: seq<Candle>)
    requires |s| > 0 && tf > 0
    ensures |r| >= |s| > 0
    decreases |ticks|
  {
    if ticks == [] then s
    else
      var t := ticks[0];
      IngestAll(Ingest(s, tf, t.price, t.size, t.timestamp).0, tf, ticks[1..])
  }

  /** Whatever the ticks, a gap-free series stays gap-free: missing intervals are always filled. */
  lemma {:induction false} IngestAllKeepsContiguous(s: seq<Candle>, tf: nat, ticks: seq<Tick>)
    requires |s| > 0 && tf > 0
    requires Contiguous(s, tf)
    ensures Contiguous(IngestAll(s, tf, ticks), tf)
    decreases |ticks|
  {
    if ticks != [] {
      var t := ticks[0];
      IngestKeepsContiguous(s, tf, t.price, t.size, t.timestamp);
      IngestAllKeepsContiguous(Ingest(s, tf, t.price, t.size, t.timestamp).0, tf, ticks[1..]);
    }
  }

  /**
   * Replaying a tick right after it opened a candle does not append a
   * duplicate candle: the replay falls in the candle the first copy opened.
   */
  lemma ReplayAfterNewCandle(s: seq<Candle>, tf: nat, price: real, size: real, ts: int)
    requires |s| > 0 && tf > 0
    requires ts >= s[|s| - 1].timestamp + tf
    ensures var r := Ingest(s, tf, price, size, ts).0;
            var again := Ingest(r, tf, price, size, ts);
            again.1 == SameCandle && |again.0| == |r|
  {
    IngestNewCandle(s, tf, price, size, ts);
  }

  /** Replaying an in-interval tick leaves the prices as one copy did; only the volume accumulates. */
  lemma ReplaySameCandle(c: Candle, price: real, size: real)
    requires c.low <= c.high
    ensures Absorb(Absorb(c, price, size), price, size) == Absorb(c, price, size).(volume := c.volume + 2.0 * size)
  {
  }

  /** Ticks at 0 s, 30 s and 65 s on one-minute candles: one update, then one new candle at 60 s and no flat one. */
  lemma OneBoundaryScenario(p0: real, p1: real, p2: real, v0: real, v1: real, v2: real)
    ensures var tf := IntervalMs("1m").value;
            var s0 := [Opened(0, p0, v0)];
            var s1 := Ingest(s0, tf, p1, v1, 30000);
            var s2 := Ingest(s1.0, tf, p2, v2, 65000);
            && s1.1 == SameCandle && |s1.0| == 1
            && s2.1 == NewCandle && |s2.0| == 2
            && s2.0[1] == Opened(60000, p2, v2)
  {
    var s0 := [Opened(0, p0, v0)];
    var s1 := Ingest(s0, 60000, p1, v1, 30000);
    IngestNewCandle(s1.0, 60000, p2, v2, 65000);
  }

  /** Ticks at 0 s and 185 s on one-minute candles: flat candles at 60 s and 120 s, then the tick's candle at 180 s. */
  lemma SkippedIntervalsScenario(p0: real, p1: real, v0: real, v1: real)
    ensures var tf := IntervalMs("1m").value;
            var s0 := [Opened(0, p0, v0)];
            var s1 := Ingest(s0, tf, p1, v1, 185000);
            s1 == ([Opened(0, p0, v0), Flat(60000, p0), Flat(120000, p0), Opened(180000, p1, v1)], NewCandle)
  {
    var s0 := [Opened(0, p0, v0)];
    assert (185000 - 0) / 60000 == 3;
    var gap := GapCandles(s0[0], 60000, 2);
    assert gap == [Flat(60000, p0), Flat(120000, p0)];
    assert 0 + 3 * 60000 == 180000;
    assert Ingest(s0, 60000, p1, v1, 185000).0 == s0 + gap + [Opened(180000, p1, v1)];
    assert s0 + gap + [Opened(180000, p1, v1)]
        == [Opened(0, p0, v0), Flat(60000, p0), Flat(120000, p0), Opened(180000, p1, v1)];
  }
}
