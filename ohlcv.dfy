/** The candle chart of a futures market: `get_ohlcv` groups the market's
    trades since a given time into buckets of `bucketSeconds` seconds and
    reports, per bucket in ascending order, the open, high, low and close
    prices and the traded volume. */
module Ohlcv {
  import opened Common
  import opened FuturesRecords

  datatype Candle = Candle(bucket: int, open: real, high: real, low: real, close: real, volume: int)

  /** SQLite's integer `/`: the quotient truncated toward zero. */
  function Quotient(ts: int, b: int): (q: int)
    requires b > 0
    ensures ts >= 0 ==> q * b <= ts < q * b + b
    ensures ts < 0 ==> q * b - b < ts <= q * b
  {
    if ts >= 0 then ts / b else -((-ts) / b)
  }

  predicate StrictlyIncreasing(s: seq<int>)
  {
    forall i, j :: 0 <= i < j < |s| ==> s[i] < s[j]
  }

  /** `WHERE market = ? AND timestamp >= ?`, in table order. */
  function Selected(trades: seq<Trade>, market: string, since: int): (r: seq<Trade>)
    ensures forall t :: t in r <==> t in trades && t.market == market && t.timestamp >= since
  {
    if trades == [] then []
    else
      var t := trades[|trades| - 1];
      Selected(trades[..|trades| - 1], market, since) + (if t.market == market && t.timestamp >= since then [t] else [])
  }

  /** The trades of one quotient, in table order. */
  function Group(ts: seq<Trade>, q: int, b: int): (r: seq<Trade>)
    requires b > 0
    ensures forall t :: t in r <==> t in ts && Quotient(t.timestamp, b) == q
  {
    if ts == [] then []
    else
      var t := ts[|ts| - 1];
      Group(ts[..|ts| - 1], q, b) + (if Quotient(t.timestamp, b) == q then [t] else [])
  }

  function InsertKey(keys: seq<int>, k: int): (r: seq<int>)
    requires StrictlyIncreasing(keys)
    ensures StrictlyIncreasing(r)
    ensures forall x :: x in r <==> x in keys || x == k
  {
    if keys == [] then [k]
    else if k < keys[0] then [k] + keys
    else if k == keys[0] then keys
    else
      var rest := InsertKey(keys[1..], k);
      InsertAfterHead(keys, k, rest);
      [keys[0]] + rest
  }

  /** Putting the smallest key back in front of the keys that follow it
      keeps them ascending. */
  lemma InsertAfterHead(keys: seq<int>, k: int, rest: seq<int>)
    requires keys != [] && StrictlyIncreasing(keys) && keys[0] < k
    requires StrictlyIncreasing(rest)
    requires forall x :: x in rest <==> x in keys[1..] || x == k
    ensures StrictlyIncreasing([keys[0]] + rest)
    ensures forall x :: x in [keys[0]] + rest <==> x in keys || x == k
  {
    assert forall x :: x in keys[1..] ==> keys[0] < x;
    assert forall x :: x in rest ==> keys[0] < x;
    assert keys == [keys[0]] + keys[1..];
    var r := [keys[0]] + rest;
    forall i, j | 0 <= i < j < |r|
      ensures r[i] < r[j]
    {
      if i > 0 {
        assert r[i] == rest[i - 1] && r[j] == rest[j - 1];
      } else {
        assert r[j] == rest[j - 1] && r[j] in rest;
      }
    }
  }

  /** `GROUP BY bucket ORDER BY bucket ASC`: the distinct quotients of the
      trades, ascending. */
  function Quotients(ts: seq<Trade>, b: int): (r: seq<int>)
    requires b > 0
    ensures StrictlyIncreasing(r)
    ensures forall q :: q in r <==> exists t :: t in ts && Quotient(t.timestamp, b) == q
  {
    if ts == [] then []
    else
      var init := ts[..|ts| - 1];
      var t := ts[|ts| - 1];
      assert ts == init + [t];
      InsertKey(Quotients(init, b), Quotient(t.timestamp, b))
  }

  /** The earliest trade; on equal timestamps, the first in table order. */
  function Earliest(ts: seq<Trade>): (r: Trade)
    requires ts != []
    ensures r in ts && forall t :: t in ts ==> r.timestamp <= t.timestamp
  {
    if |ts| == 1 then ts[0]
    else
      var e := Earliest(ts[..|ts| - 1]);
      assert ts == ts[..|ts| - 1] + [ts[|ts| - 1]];
      if ts[|ts| - 1].timestamp < e.timestamp then ts[|ts| - 1] else e
  }

  /** The latest trade; on equal timestamps, the last in table order. */
  function Latest(ts: seq<Trade>): (r: Trade)
    requires ts != []
    ensures r in ts && forall t :: t in ts ==> t.timestamp <= r.timestamp
  {
    if |ts| == 1 then ts[0]
    else
      var l := Latest(ts[..|ts| - 1]);
      assert ts == ts[..|ts| - 1] + [ts[|ts| - 1]];
      if ts[|ts| - 1].timestamp >= l.timestamp then ts[|ts| - 1] else l
  }

  /** `MAX(price_usd)` */
  function High(ts: seq<Trade>): (r: real)
    requires ts != []
    ensures exists t :: t in ts && t.priceUsd == r
    ensures forall t :: t in ts ==> t.priceUsd <= r
  {
    if |ts| == 1 then ts[0].priceUsd
    else
      var h := High(ts[..|ts| - 1]);
      assert ts == ts[..|ts| - 1] + [ts[|ts| - 1]];
      if ts[|ts| - 1].priceUsd > h then ts[|ts| - 1].priceUsd else h
  }

  /** `MIN(price_usd)` */
  function Low(ts: seq<Trade>): (r: real)
    requires ts != []
    ensures exists t :: t in ts && t.priceUsd == r
    ensures forall t :: t in ts ==> r <= t.priceUsd
  {
    if |ts| == 1 then ts[0].priceUsd
    else
      var l := Low(ts[..|ts| - 1]);
      assert ts == ts[..|ts| - 1] + [ts[|ts| - 1]];
      if ts[|ts| - 1].priceUsd < l then ts[|ts| - 1].priceUsd else l
  }

  /** `SUM(size_sats)` */
  function Volume(ts: seq<Trade>): int
  {
    if ts == [] then 0 else Volume(ts[..|ts| - 1]) + ts[|ts| - 1].sizeSats
  }

  /** `WHERE market = ?` alone, as in the open and close subqueries. */
  function OfMarket(trades: seq<Trade>, market: string): (r: seq<Trade>)
    ensures forall t :: t in r <==> t in trades && t.market == market
  {
    if trades == [] then []
    else
      var t := trades[|trades| - 1];
      OfMarket(trades[..|trades| - 1], market) + (if t.market == market then [t] else [])
  }

  /** One row of `get_ohlcv` as written: high, low and volume come from the
      selected trades of the bucket, but the open and close subqueries look
      at every trade of the market in the bucket, before `since` or not. */
  function CandleAsWritten(trades: seq<Trade>, market: string, since: int, q: int, b: int): Candle
    requires b > 0
    requires Group(Selected(trades, market, since), q, b) != []
  {
    var g := Group(Selected(trades, market, since), q, b);
    var all := Group(OfMarket(trades, market), q, b);
    assert Earliest(g) in all;
    Candle(q * b, Earliest(all).priceUsd, High(g), Low(g), Latest(all).priceUsd, Volume(g))
  }

  /** `get_ohlcv(market, since, bucket_seconds)` as written. */
  function CandlesAsWritten(trades: seq<Trade>, market: string, since: int, b: int): seq<Candle>
    requires b > 0
  {
    var sel := Selected(trades, market, since);
    var qs := Quotients(sel, b);
    seq(|qs|, i requires 0 <= i < |qs| => (GroupOfKey(sel, qs, i, b); CandleAsWritten(trades, market, since, qs[i], b)))
  }

  /** A bucket key comes from a selected trade, so its group is not empty. */
  lemma GroupOfKey(sel: seq<Trade>, qs: seq<int>, i: int, b: int)
    requires b > 0 && 0 <= i < |qs| && qs == Quotients(sel, b)
    ensures Group(sel, qs[i], b) != []
  {
    assert qs[i] in qs;
    var t :| t in sel && Quotient(t.timestamp, b) == qs[i];
    assert t in Group(sel, qs[i], b);
  }

  /** The candle with every price taken from the selected trades. */
  function CandleOf(sel: seq<Trade>, q: int, b: int): Candle
    requires b > 0 && Group(sel, q, b) != []
  {
    var g := Group(sel, q, b);
    Candle(q * b, Earliest(g).priceUsd, High(g), Low(g), Latest(g).priceUsd, Volume(g))
  }

  /** `get_ohlcv` with the open and close subqueries restricted to
      `timestamp >= since` like the rest of the query. */
  function Candles(trades: seq<Trade>, market: string, since: int, b: int): seq<Candle>
    requires b > 0
  {
    var sel := Selected(trades, market, since);
    var qs := Quotients(sel, b);
    seq(|qs|, i requires 0 <= i < |qs| => (GroupOfKey(sel, qs, i, b); CandleOf(sel, qs[i], b)))
  }

  lemma MulStrict(a: int, c: int, b: int)
    requires b > 0 && a < c
    ensures a * b < c * b
  {
  }

  /** The candles come in strictly ascending bucket order, so no bucket has
      two candles. */
  lemma CandlesAscending(trades: seq<Trade>, market: string, since: int, b: int)
    requires b > 0
    ensures var r := Candles(trades, market, since, b);
      forall i, j :: 0 <= i < j < |r| ==> r[i].bucket < r[j].bucket
  {
    var r := Candles(trades, market, since, b);
    var qs := Quotients(Selected(trades, market, since), b);
    forall i, j | 0 <= i < j < |r| ensures r[i].bucket < r[j].bucket {
      MulStrict(qs[i], qs[j], b);
    }
  }

  /** Every trade of the market since `since` has a candle: the one whose
      bucket is its timestamp's quotient times the width. */
  lemma CandlesCoverSelected(trades: seq<Trade>, market: string, since: int, b: int, t: Trade)
    requires b > 0
    requires t in trades && t.market == market && t.timestamp >= since
    ensures var r := Candles(trades, market, since, b);
      exists i :: 0 <= i < |r| && r[i].bucket == Quotient(t.timestamp, b) * b
  {
    var r := Candles(trades, market, since, b);
    var sel := Selected(trades, market, since);
    var qs := Quotients(sel, b);
    assert t in sel;
    var q := Quotient(t.timestamp, b);
    assert q in qs;
    var i :| 0 <= i < |qs| && qs[i] == q;
    assert r[i].bucket == q * b;
  }

  /** Every candle summarises the selected trades of its bucket, and there is
      at least one: the volume is their total size, high and low are their
      largest and smallest prices, open and close are the prices of the
      earliest and the latest of them. */
  lemma CandleSummarisesBucket(trades: seq<Trade>, market: string, since: int, b: int, i: int)
    requires b > 0 && 0 <= i < |Candles(trades, market, since, b)|
    ensures var c := Candles(trades, market, since, b)[i];
      var g := Group(Selected(trades, market, since), c.bucket / b, b);
      && g != []
      && c.volume == Volume(g)
      && (forall t :: t in g ==> t.market == market && t.timestamp >= since && c.low <= t.priceUsd <= c.high)
      && (exists t :: t in g && t.priceUsd == c.high)
      && (exists t :: t in g && t.priceUsd == c.low)
      && (exists t :: t in g && t.priceUsd == c.open && forall u :: u in g ==> t.timestamp <= u.timestamp)
      && (exists t :: t in g && t.priceUsd == c.close && forall u :: u in g ==> u.timestamp <= t.timestamp)
  {
    var sel := Selected(trades, market, since);
    var qs := Quotients(sel, b);
    GroupOfKey(sel, qs, i, b);
    MultipleDiv(qs[i], b);
    var g := Group(sel, qs[i], b);
    assert Earliest(g) in g && Latest(g) in g;
  }

  lemma MultipleDiv(q: int, b: int)
    requires b > 0
    ensures (q * b) / b == q
  {
    var d := (q * b) / b;
    var m := (q * b) % b;
    assert q * b == d * b + m && 0 <= m < b;
    assert (q - d) * b == m by { MulDistributes(q, -d, b); }
    if q - d >= 1 {
      MulMonotone(1, q - d, b);
    } else if q - d <= -1 {
      MulMonotone(q - d, -1, b);
    }
  }

  lemma MulDistributes(a: int, c: int, b: int)
    ensures (a + c) * b == a * b + c * b
  {
  }

  lemma MulMonotone(a: int, c: int, b: int)
    requires b > 0 && a <= c
    ensures a * b <= c * b
  {
  }

  /** As written, a candle agrees with the corrected one on its bucket, high,
      low and volume, and its close is still a price within `[low, high]`;
      only its open may come from a trade before `since`. */
  lemma AsWrittenCloseInRange(trades: seq<Trade>, market: string, since: int, b: int)
    requires b > 0
    ensures var w := CandlesAsWritten(trades, market, since, b);
      var r := Candles(trades, market, since, b);
      && |w| == |r|
      && forall i :: 0 <= i < |w| ==>
           && w[i].bucket == r[i].bucket && w[i].high == r[i].high && w[i].low == r[i].low
           && w[i].volume == r[i].volume
           && w[i].low <= w[i].close <= w[i].high
  {
    var sel := Selected(trades, market, since);
    var qs := Quotients(sel, b);
    var w := CandlesAsWritten(trades, market, since, b);
    forall i | 0 <= i < |w| ensures w[i].low <= w[i].close <= w[i].high {
      GroupOfKey(sel, qs, i, b);
      var g := Group(sel, qs[i], b);
      var all := Group(OfMarket(trades, market), qs[i], b);
      var e := Earliest(g);
      assert e in all;
      var l := Latest(all);
      assert e.timestamp <= l.timestamp;
      assert l in g;
    }
  }

  /** A trade before `since` and one after it, in the same 300-second bucket. */
  const EarlyTrade := Trade(1, "BTC-USD", "a", "b", 1, 10.0, 1, 2, 100)
  const LateTrade := Trade(2, "BTC-USD", "a", "b", 1, 20.0, 3, 4, 200)

  lemma ExampleSelection()
    ensures Selected([EarlyTrade, LateTrade], "BTC-USD", 150) == [LateTrade]
    ensures Quotients([LateTrade], 300) == [0]
    ensures Group([LateTrade], 0, 300) == [LateTrade]
  {
    assert [EarlyTrade, LateTrade][..1] == [EarlyTrade];
    assert [EarlyTrade][..0] == [] && [LateTrade][..0] == [];
    assert Selected([EarlyTrade], "BTC-USD", 150) == [];
    assert Quotient(200, 300) == 0;
  }

  lemma ExampleMarket()
    ensures Group(OfMarket([EarlyTrade, LateTrade], "BTC-USD"), 0, 300) == [EarlyTrade, LateTrade]
    ensures Earliest([EarlyTrade, LateTrade]) == EarlyTrade
  {
    var trades := [EarlyTrade, LateTrade];
    assert trades[..1] == [EarlyTrade];
    assert [EarlyTrade][..0] == [];
    assert OfMarket([EarlyTrade], "BTC-USD") == [EarlyTrade];
    assert OfMarket(trades, "BTC-USD") == trades;
    assert Quotient(200, 300) == 0 && Quotient(100, 300) == 0;
    assert Group([EarlyTrade], 0, 300) == [EarlyTrade];
  }

  /** The open of the first candle can lie below its low: a trade before
      `since` in the same bucket sets the open, though it is left out of the
      high and the low. */
  lemma AsWrittenOpenOutOfRange()
    ensures var w := CandlesAsWritten([EarlyTrade, LateTrade], "BTC-USD", 150, 300);
      |w| == 1 && w[0].open == 10.0 && w[0].low == 20.0 && w[0].open < w[0].low
  {
    ExampleSelection();
    ExampleMarket();
    var c := CandleAsWritten([EarlyTrade, LateTrade], "BTC-USD", 150, 0, 300);
    assert c.open == 10.0 && c.low == 20.0;
  }

  /** With the subqueries restricted to `since`, every candle is well formed:
      `low <= open <= high` and `low <= close <= high`. */
  lemma CandlesWellFormed(trades: seq<Trade>, market: string, since: int, b: int)
    requires b > 0
    ensures var r := Candles(trades, market, since, b);
      forall i :: 0 <= i < |r| ==>
        r[i].low <= r[i].open <= r[i].high && r[i].low <= r[i].close <= r[i].high
  {
    var r := Candles(trades, market, since, b);
    forall i | 0 <= i < |r|
      ensures r[i].low <= r[i].open <= r[i].high && r[i].low <= r[i].close <= r[i].high
    {
      CandleSummarisesBucket(trades, market, since, b, i);
    }
  }
}
