/** The open-order book as the engine reads it: the ledger's query
    (futures_ledger.py:242-254) and the engine's re-sort of the resting
    limit orders by price-time priority (futures_engine.py:252-268). */
module OrderBook {
  import opened Common
  import opened Margin
  import opened FuturesRecords

  /** Ascending: `ORDER BY price_usd, created_at` (SQLite puts NULL prices
      first) and the long taker's `(price, created_at)` key. Descending: the
      short taker's `(-price, created_at)` key; it only ever sees limit
      orders, so where it puts a missing price is immaterial. */
  datatype Direction = Ascending | Descending

  predicate PriceBefore(p: Option<real>, q: Option<real>, dir: Direction)
  {
    (p.None? && q.Some?) ||
    (p.Some? && q.Some? && (if dir == Ascending then p.value < q.value else p.value > q.value))
  }

  /** `a` may come before `b`: better price, or equal price and not later. */
  predicate KeyLe(a: Order, b: Order, dir: Direction)
  {
    PriceBefore(a.priceUsd, b.priceUsd, dir) ||
    (a.priceUsd == b.priceUsd && a.createdAt <= b.createdAt)
  }

  lemma KeyLeTotal(a: Order, b: Order, dir: Direction)
    ensures KeyLe(a, b, dir) || KeyLe(b, a, dir)
  {
  }

  lemma KeyLeTransitive(a: Order, b: Order, c: Order, dir: Direction)
    requires KeyLe(a, b, dir) && KeyLe(b, c, dir)
    ensures KeyLe(a, c, dir)
  {
  }

  predicate Sorted(s: seq<Order>, dir: Direction)
  {
    forall i, j :: 0 <= i < j < |s| ==> KeyLe(s[i], s[j], dir)
  }

  /** Insert before the first element it may precede; an element already
      present with the same key stays in front. */
  function Insert(o: Order, s: seq<Order>, dir: Direction): (r: seq<Order>)
    requires Sorted(s, dir)
    ensures Sorted(r, dir)
    ensures multiset(r) == multiset(s) + multiset{o}
  {
    if s == [] then [o]
    else if KeyLe(o, s[0], dir) then
      InsertInFront(o, s, dir);
      [o] + s
    else
      var rest := Insert(o, s[1..], dir);
      InsertBehindHead(o, s, rest, dir);
      [s[0]] + rest
  }

  /** An order that may precede the head of a sorted book may precede all of it. */
  lemma InsertInFront(o: Order, s: seq<Order>, dir: Direction)
    requires Sorted(s, dir) && s != [] && KeyLe(o, s[0], dir)
    ensures Sorted([o] + s, dir)
  {
    var r := [o] + s;
    forall i, j | 0 <= i < j < |r| ensures KeyLe(r[i], r[j], dir) {
      assert r[j] == s[j - 1];
      if i == 0 {
        if j > 1 { KeyLeTransitive(o, s[0], s[j - 1], dir); }
      } else {
        assert r[i] == s[i - 1];
      }
    }
  }

  /** When the order goes behind the head, the head still leads the rest. */
  lemma InsertBehindHead(o: Order, s: seq<Order>, rest: seq<Order>, dir: Direction)
    requires Sorted(s, dir) && s != [] && !KeyLe(o, s[0], dir)
    requires Sorted(rest, dir) && multiset(rest) == multiset(s[1..]) + multiset{o}
    ensures Sorted([s[0]] + rest, dir)
    ensures multiset([s[0]] + rest) == multiset(s) + multiset{o}
  {
    assert s == [s[0]] + s[1..];
    var r := [s[0]] + rest;
    forall i, j | 0 <= i < j < |r| ensures KeyLe(r[i], r[j], dir) {
      assert r[j] == rest[j - 1];
      if i == 0 {
        assert rest[j - 1] in multiset(rest);
        if rest[j - 1] == o {
          KeyLeTotal(o, s[0], dir);
        } else {
          assert rest[j - 1] in multiset(s[1..]);
          var k :| 0 <= k < |s[1..]| && s[1..][k] == rest[j - 1];
          assert s[k + 1] == rest[j - 1];
        }
      } else {
        assert r[i] == rest[i - 1];
      }
    }
  }

  /** Stable insertion sort by the direction's key. */
  function SortOrders(s: seq<Order>, dir: Direction): (r: seq<Order>)
    ensures Sorted(r, dir)
    ensures multiset(r) == multiset(s)
    ensures |r| == |s|
  {
    if s == [] then []
    else
      assert s == [s[0]] + s[1..];
      Insert(s[0], SortOrders(s[1..], dir), dir)
  }

  predicate InBook(o: Order, market: string, side: Option<Side>)
  {
    o.market == market && o.status == Open && (side.None? || o.side == side.value)
  }

  function FilterBook(orders: seq<Order>, market: string, side: Option<Side>): (r: seq<Order>)
    ensures forall o :: o in r <==> o in orders && InBook(o, market, side)
    ensures multiset(r) <= multiset(orders)
  {
    if orders == [] then []
    else
      var last := orders[|orders| - 1];
      assert orders == orders[..|orders| - 1] + [last];
      FilterBook(orders[..|orders| - 1], market, side) + (if InBook(last, market, side) then [last] else [])
  }

  /** `get_open_orders_for_market`: exactly the market's open orders (of the
      given side, if one is given), ordered by (price, created_at). */
  function OpenOrdersForMarket(orders: seq<Order>, market: string, side: Option<Side>): (r: seq<Order>)
    ensures forall o :: o in r <==> o in orders && InBook(o, market, side)
    ensures Sorted(r, Ascending)
    ensures multiset(r) <= multiset(orders)
    ensures DistinctOrderIds(orders) ==> DistinctOrderIds(r)
  {
    var f := FilterBook(orders, market, side);
    var r := SortOrders(f, Ascending);
    assert forall o :: o in r <==> o in multiset(f);
    assert DistinctOrderIds(orders) ==> DistinctOrderIds(r) by {
      if DistinctOrderIds(orders) {
        SubMultisetDistinct(r, orders);
      }
    }
    r
  }

  function FilterLimit(s: seq<Order>): (r: seq<Order>)
    ensures forall o :: o in r <==> o in s && o.orderType == Limit
    ensures multiset(r) <= multiset(s)
  {
    if s == [] then []
    else
      var last := s[|s| - 1];
      assert s == s[..|s| - 1] + [last];
      FilterLimit(s[..|s| - 1]) + (if last.orderType == Limit then [last] else [])
  }

  /** What placement guarantees of every order row: a positive size, a
      leverage of at least 1, a positive price on a limit order, and nothing
      filled while the order is still open. */
  predicate WellFormedOrder(o: Order)
  {
    && o.sizeSats > 0
    && o.leverage >= 1
    && (o.orderType == Limit ==> o.priceUsd.Some? && o.priceUsd.value > 0.0)
    && (o.status == Open ==> o.filledSizeSats == 0)
  }

  predicate BookInvariant(orders: seq<Order>)
  {
    forall o :: o in orders ==> WellFormedOrder(o)
  }

  /** Every order carries a positive price. */
  predicate Priced(resting: seq<Order>)
  {
    forall o :: o in resting ==> o.priceUsd.Some? && o.priceUsd.value > 0.0
  }

  function MakerDirection(takerSide: Side): Direction
  {
    if takerSide == Long then Ascending else Descending
  }

  /** The engine's candidate makers for a taker: the opposite side's open
      limit orders in the market, best price first, earlier order first on a
      tie (cheapest ask for a long taker, richest bid for a short one). */
  function RestingMakers(orders: seq<Order>, market: string, takerSide: Side): (r: seq<Order>)
    ensures forall o :: o in r <==>
      o in orders && o.market == market && o.status == Open && o.side == Opposite(takerSide) && o.orderType == Limit
    ensures Sorted(r, MakerDirection(takerSide))
    ensures BookInvariant(orders) ==> BookInvariant(r) && Priced(r)
    ensures multiset(r) <= multiset(orders)
    ensures DistinctOrderIds(orders) ==> DistinctOrderIds(r)
  {
    var open := OpenOrdersForMarket(orders, market, Some(Opposite(takerSide)));
    var limits := FilterLimit(open);
    var r := SortOrders(limits, MakerDirection(takerSide));
    assert forall o :: o in r <==> o in limits by {
      forall o ensures o in r <==> o in limits {
        assert o in r <==> o in multiset(r);
        assert o in limits <==> o in multiset(limits);
      }
    }
    assert multiset(r) <= multiset(orders) by {
      assert multiset(r) == multiset(limits);
      assert multiset(limits) <= multiset(open) <= multiset(orders);
    }
    assert DistinctOrderIds(orders) ==> DistinctOrderIds(r) by {
      if DistinctOrderIds(orders) {
        SubMultisetDistinct(r, orders);
      }
    }
    r
  }

  /** A table with a primary key holds each row at most once. */
  lemma {:induction false} DistinctOnce(s: seq<Order>, o: Order)
    requires DistinctOrderIds(s)
    ensures multiset(s)[o] <= 1
  {
    if s != [] {
      var init := s[..|s| - 1];
      var last := s[|s| - 1];
      assert s == init + [last];
      assert DistinctOrderIds(init);
      DistinctOnce(init, o);
    }
  }

  /** A row at two positions of a sequence is counted at least twice. */
  lemma RepeatCounted(r: seq<Order>, i: int, j: int)
    requires 0 <= i < j < |r| && r[i] == r[j]
    ensures multiset(r)[r[i]] >= 2
  {
    assert r == r[..j] + [r[j]] + r[j + 1..];
    assert r[i] == r[..j][i];
  }

  /** Whatever draws its rows from a table with a primary key, each at most
      as often as the table holds it, has distinct ids too. */
  lemma SubMultisetDistinct(r: seq<Order>, s: seq<Order>)
    requires multiset(r) <= multiset(s) && DistinctOrderIds(s)
    ensures DistinctOrderIds(r)
  {
    forall i, j | 0 <= i < j < |r| ensures r[i].id != r[j].id {
      if r[i] == r[j] {
        RepeatCounted(r, i, j);
        DistinctOnce(s, r[i]);
      } else {
        assert r[i] in multiset(s) && r[j] in multiset(s);
        var a :| 0 <= a < |s| && s[a] == r[i];
        var b :| 0 <= b < |s| && s[b] == r[j];
        assert a != b;
      }
    }
  }

  /** Two priced rows of a sorted book, in book order. */
  lemma SortedPricedPair(r: seq<Order>, dir: Direction, i: int, j: int)
    requires Sorted(r, dir) && Priced(r) && 0 <= i < j < |r|
    ensures r[i].priceUsd.Some? && r[j].priceUsd.Some? && r[i].priceUsd.value > 0.0 && r[j].priceUsd.value > 0.0
    ensures KeyLe(r[i], r[j], dir)
  {
    assert r[i] in r && r[j] in r;
  }

  /** Price-time priority spelled out for the resting makers of a long
      taker: a cheaper ask always comes first, and of two asks at one price
      the earlier one comes first. */
  lemma {:induction false} LongTakerPriority(orders: seq<Order>, market: string, i: int, j: int)
    requires BookInvariant(orders)
    requires var r := RestingMakers(orders, market, Long); 0 <= i < j < |r|
    ensures var r := RestingMakers(orders, market, Long);
      r[i].priceUsd.Some? && r[j].priceUsd.Some? &&
      r[i].priceUsd.value <= r[j].priceUsd.value &&
      (r[i].priceUsd.value == r[j].priceUsd.value ==> r[i].createdAt <= r[j].createdAt)
  {
    var r := RestingMakers(orders, market, Long);
    SortedPricedPair(r, Ascending, i, j);
  }

  /** The same for a short taker: a richer bid always comes first. */
  lemma {:induction false} ShortTakerPriority(orders: seq<Order>, market: string, i: int, j: int)
    requires BookInvariant(orders)
    requires var r := RestingMakers(orders, market, Short); 0 <= i < j < |r|
    ensures var r := RestingMakers(orders, market, Short);
      r[i].priceUsd.Some? && r[j].priceUsd.Some? &&
      r[i].priceUsd.value >= r[j].priceUsd.value &&
      (r[i].priceUsd.value == r[j].priceUsd.value ==> r[i].createdAt <= r[j].createdAt)
  {
    var r := RestingMakers(orders, market, Short);
    SortedPricedPair(r, Descending, i, j);
  }
}
