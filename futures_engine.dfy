/** The matching engine (futures_engine.py:147-430): order placement with a
    collateral reservation, price-time matching against the resting limit
    orders, the fill that opens one position per counterparty, cancellation
    with a refund, and closing a position at the mark price. The oracle's
    mark price and the clock are parameters; the engine lock is not
    modelled (the engine is a single sequential writer). */
module FuturesEngine {
  import opened Common
  import opened Margin
  import opened FuturesRecords
  import opened OrderBook
  import opened FuturesLedger

  // ---------------------------------------------------------------------
  // The matching plan
  // ---------------------------------------------------------------------

  /** One execution against a resting maker, at the maker's price. */
  datatype Fill = Fill(maker: Order, sizeSats: int, priceUsd: real)

  /** A limit taker trades with a maker only at a price at least as good as
      its own: a long pays at most its price, a short receives at least. */
  predicate Crosses(takerSide: Side, takerPrice: real, makerPrice: real)
  {
    if takerSide == Long then takerPrice >= makerPrice else takerPrice <= makerPrice
  }

  function TotalFilled(fills: seq<Fill>): int
  {
    if fills == [] then 0 else fills[0].sizeSats + TotalFilled(fills[1..])
  }

  /** How much of `fills` went to the maker `m`. */
  function FillOf(fills: seq<Fill>, m: Order): int
  {
    if fills == [] then 0
    else (if fills[0].maker == m then fills[0].sizeSats else 0) + FillOf(fills[1..], m)
  }

  /** A fill `_match_order` may make for this taker: against a maker of the
      book, at that maker's price, for a positive size no larger than what
      is left of the maker, and (for a limit taker) at a crossing price. */
  predicate AdmissibleFill(f: Fill, taker: Order, takerPrice: real, resting: seq<Order>)
  {
    && f.maker in resting
    && f.maker.priceUsd.Some? && f.priceUsd == f.maker.priceUsd.value
    && 0 < f.sizeSats <= f.maker.sizeSats - f.maker.filledSizeSats
    && (taker.orderType == Limit ==> Crosses(taker.side, takerPrice, f.priceUsd))
  }

  predicate DistinctMakers(fills: seq<Fill>)
  {
    forall i, j :: 0 <= i < j < |fills| ==> fills[i].maker.id != fills[j].maker.id
  }

  /** The fills `_match_order` performs: walk the resting makers in order,
      stop once the taker is filled or (for a limit taker) at the first
      maker whose price does not cross, skip a maker with nothing left, and
      otherwise fill the smaller of the two remainders at the maker's price. */
  function PlanFills(taker: Order, takerPrice: real, resting: seq<Order>, remaining: int): seq<Fill>
    requires Priced(resting)
    decreases |resting|
  {
    if resting == [] || remaining <= 0 then []
    else
      var maker := resting[0];
      var makerPrice := maker.priceUsd.value;
      var tail := resting[1..];
      assert forall o :: o in tail ==> o in resting;
      if taker.orderType == Limit && !Crosses(taker.side, takerPrice, makerPrice) then []
      else
        var fillSize := Min(remaining, maker.sizeSats - maker.filledSizeSats);
        if fillSize <= 0 then PlanFills(taker, takerPrice, tail, remaining)
        else [Fill(maker, fillSize, makerPrice)] + PlanFills(taker, takerPrice, tail, remaining - fillSize)
  }

  /** Every planned fill is admissible, and together they never exceed what
      the taker has left (nothing at all once nothing is left). */
  lemma {:induction false} PlanAdmissible(taker: Order, takerPrice: real, resting: seq<Order>, remaining: int)
    requires Priced(resting)
    ensures var r := PlanFills(taker, takerPrice, resting, remaining);
      && (remaining <= 0 ==> r == [])
      && (forall f :: f in r ==> AdmissibleFill(f, taker, takerPrice, resting))
      && (remaining > 0 ==> 0 <= TotalFilled(r) <= remaining)
    decreases |resting|
  {
    if resting != [] && remaining > 0 {
      var maker := resting[0];
      var tail := resting[1..];
      assert forall o :: o in tail ==> o in resting;
      if !(taker.orderType == Limit && !Crosses(taker.side, takerPrice, maker.priceUsd.value)) {
        var fillSize := Min(remaining, maker.sizeSats - maker.filledSizeSats);
        if fillSize <= 0 {
          PlanAdmissible(taker, takerPrice, tail, remaining);
        } else {
          PlanAdmissible(taker, takerPrice, tail, remaining - fillSize);
          var rest := PlanFills(taker, takerPrice, tail, remaining - fillSize);
          var r := [Fill(maker, fillSize, maker.priceUsd.value)] + rest;
          assert r[1..] == rest;
          assert forall f :: f in r ==> f == r[0] || f in rest;
        }
      }
    }
  }

  /** No maker is filled twice: in a book of distinct orders, the planned
      fills name distinct makers. */
  lemma {:induction false} PlanDistinct(taker: Order, takerPrice: real, resting: seq<Order>, remaining: int)
    requires Priced(resting) && DistinctOrderIds(resting)
    ensures DistinctMakers(PlanFills(taker, takerPrice, resting, remaining))
    decreases |resting|
  {
    if resting != [] && remaining > 0 {
      var maker := resting[0];
      var tail := resting[1..];
      assert forall o :: o in tail ==> o in resting;
      DistinctTail(resting);
      if !(taker.orderType == Limit && !Crosses(taker.side, takerPrice, maker.priceUsd.value)) {
        var fillSize := Min(remaining, maker.sizeSats - maker.filledSizeSats);
        if fillSize <= 0 {
          PlanDistinct(taker, takerPrice, tail, remaining);
        } else {
          PlanDistinct(taker, takerPrice, tail, remaining - fillSize);
          PlanAdmissible(taker, takerPrice, tail, remaining - fillSize);
          DistinctCons(Fill(maker, fillSize, maker.priceUsd.value), PlanFills(taker, takerPrice, tail, remaining - fillSize));
        }
      }
    }
  }

  /** The tail of a list of distinct orders is distinct and misses the head. */
  lemma DistinctTail(s: seq<Order>)
    requires s != [] && DistinctOrderIds(s)
    ensures DistinctOrderIds(s[1..]) && forall o :: o in s[1..] ==> o.id != s[0].id
  {
    forall o | o in s[1..] ensures o.id != s[0].id {
      var k :| 0 <= k < |s[1..]| && s[1..][k] == o;
      assert s[k + 1] == o;
    }
  }

  /** A fill whose maker no later fill names keeps the makers distinct. */
  lemma DistinctCons(f: Fill, rest: seq<Fill>)
    requires DistinctMakers(rest) && forall g :: g in rest ==> g.maker.id != f.maker.id
    ensures DistinctMakers([f] + rest)
  {
    var r := [f] + rest;
    forall i, j | 0 <= i < j < |r| ensures r[i].maker.id != r[j].maker.id {
      assert r[j] == rest[j - 1] && r[j] in rest;
      if i > 0 { assert r[i] == rest[i - 1]; }
    }
  }

  /** `a` is at least as good a price as `b` for a taker on `side`. */
  predicate NoWorse(side: Side, a: real, b: real)
  {
    if side == Long then a <= b else a >= b
  }

  predicate PricesMonotone(fills: seq<Fill>, side: Side)
  {
    forall i, j :: 0 <= i < j < |fills| ==> NoWorse(side, fills[i].priceUsd, fills[j].priceUsd)
  }

  /** In a book sorted for the taker, the first maker's price is no worse
      than any other's. */
  lemma HeadPriceNoWorse(resting: seq<Order>, side: Side, k: int)
    requires Priced(resting) && Sorted(resting, MakerDirection(side)) && 0 <= k < |resting|
    ensures NoWorse(side, resting[0].priceUsd.value, resting[k].priceUsd.value)
  {
    assert resting[0] in resting && resting[k] in resting;
    if k > 0 {
      assert KeyLe(resting[0], resting[k], MakerDirection(side));
    }
  }

  /** A fill no worse than every later one keeps the prices in order. */
  lemma PrependMonotone(f: Fill, rest: seq<Fill>, side: Side)
    requires PricesMonotone(rest, side)
    requires forall j :: 0 <= j < |rest| ==> NoWorse(side, f.priceUsd, rest[j].priceUsd)
    ensures PricesMonotone([f] + rest, side)
  {
    var r := [f] + rest;
    forall i, j | 0 <= i < j < |r|
      ensures NoWorse(side, r[i].priceUsd, r[j].priceUsd)
    {
      if i > 0 {
        assert r[i] == rest[i - 1] && r[j] == rest[j - 1];
      } else {
        assert r[j] == rest[j - 1];
      }
    }
  }

  /** Fills follow the book: a long taker's fills never get cheaper, a
      short taker's never get richer. */
  lemma {:induction false} FillPricesMonotone(taker: Order, takerPrice: real, resting: seq<Order>, remaining: int)
    requires Priced(resting) && Sorted(resting, MakerDirection(taker.side))
    ensures PricesMonotone(PlanFills(taker, takerPrice, resting, remaining), taker.side)
    decreases |resting|
  {
    if resting != [] && remaining > 0 {
      var maker := resting[0];
      var tail := resting[1..];
      assert Sorted(tail, MakerDirection(taker.side));
      assert Priced(tail) by {
        assert forall o :: o in tail ==> o in resting;
      }
      if !(taker.orderType == Limit && !Crosses(taker.side, takerPrice, maker.priceUsd.value)) {
        var fillSize := Min(remaining, maker.sizeSats - maker.filledSizeSats);
        if fillSize <= 0 {
          FillPricesMonotone(taker, takerPrice, tail, remaining);
        } else {
          var rest := PlanFills(taker, takerPrice, tail, remaining - fillSize);
          var r := [Fill(maker, fillSize, maker.priceUsd.value)] + rest;
          FillPricesMonotone(taker, takerPrice, tail, remaining - fillSize);
          PlanAdmissible(taker, takerPrice, tail, remaining - fillSize);
          forall j | 0 <= j < |rest|
            ensures NoWorse(taker.side, maker.priceUsd.value, rest[j].priceUsd)
          {
            assert rest[j] in rest;
            var k :| 0 <= k < |tail| && tail[k] == rest[j].maker;
            HeadPriceNoWorse(resting, taker.side, k + 1);
          }
          PrependMonotone(Fill(maker, fillSize, maker.priceUsd.value), rest, taker.side);
        }
      }
    }
  }

  /** What is left of maker `m` after `fills` cannot be taken by the taker:
      nothing was left of it, a limit taker does not cross it, or the fills
      took all of it. */
  predicate Unavailable(m: Order, taker: Order, takerPrice: real, fills: seq<Fill>)
    requires m.priceUsd.Some?
  {
    || m.sizeSats - m.filledSizeSats <= 0
    || (taker.orderType == Limit && !Crosses(taker.side, takerPrice, m.priceUsd.value))
    || FillOf(fills, m) == m.sizeSats - m.filledSizeSats
  }

  /** Best execution: if the taker is left with something unfilled, no
      resting maker still offered liquidity the taker could have taken. */
  lemma {:induction false} NoCrossingLiquidityLeft(taker: Order, takerPrice: real, resting: seq<Order>, remaining: int)
    requires Priced(resting) && Sorted(resting, MakerDirection(taker.side)) && DistinctOrderIds(resting)
    requires TotalFilled(PlanFills(taker, takerPrice, resting, remaining)) < remaining
    ensures forall m :: m in resting ==> Unavailable(m, taker, takerPrice, PlanFills(taker, takerPrice, resting, remaining))
    decreases |resting|
  {
    if resting == [] {
      return;
    }
    var maker := resting[0];
    var tail := resting[1..];
    TailFacts(resting, MakerDirection(taker.side));
    if taker.orderType == Limit && !Crosses(taker.side, takerPrice, maker.priceUsd.value) {
      StopLeavesNoCrossing(taker, takerPrice, resting);
    } else {
      var fillSize := Min(remaining, maker.sizeSats - maker.filledSizeSats);
      if fillSize <= 0 {
        NoCrossingLiquidityLeft(taker, takerPrice, tail, remaining);
      } else {
        NoCrossingLiquidityLeft(taker, takerPrice, tail, remaining - fillSize);
        FilledHeadUnavailable(taker, takerPrice, resting, remaining);
      }
    }
  }

  /** What a sorted, priced book of distinct orders passes on to its tail. */
  lemma TailFacts(resting: seq<Order>, dir: Direction)
    requires resting != [] && Priced(resting) && Sorted(resting, dir) && DistinctOrderIds(resting)
    ensures Priced(resting[1..]) && Sorted(resting[1..], dir) && DistinctOrderIds(resting[1..])
    ensures forall m :: m in resting ==> m == resting[0] || m in resting[1..]
    ensures forall m :: m in resting[1..] ==> m != resting[0]
  {
    var tail := resting[1..];
    assert forall o :: o in tail ==> o in resting;
    assert resting == [resting[0]] + tail;
    forall m | m in tail ensures m != resting[0] {
      var k :| 0 <= k < |tail| && tail[k] == m;
      assert resting[0].id != resting[k + 1].id;
    }
  }

  /** A limit taker that does not cross the best maker crosses none. */
  lemma StopLeavesNoCrossing(taker: Order, takerPrice: real, resting: seq<Order>)
    requires resting != [] && Priced(resting) && Sorted(resting, MakerDirection(taker.side))
    requires !Crosses(taker.side, takerPrice, resting[0].priceUsd.value)
    ensures forall m :: m in resting ==> !Crosses(taker.side, takerPrice, m.priceUsd.value)
  {
    forall m | m in resting
      ensures !Crosses(taker.side, takerPrice, m.priceUsd.value)
    {
      var k :| 0 <= k < |resting| && resting[k] == m;
      HeadPriceNoWorse(resting, taker.side, k);
    }
  }

  /** The step case: when the best maker is filled, the taker took all of
      it, and the fills of every other maker are those of the rest. */
  lemma FilledHeadUnavailable(taker: Order, takerPrice: real, resting: seq<Order>, remaining: int)
    requires resting != [] && Priced(resting) && DistinctOrderIds(resting) && remaining > 0
    requires !(taker.orderType == Limit && !Crosses(taker.side, takerPrice, resting[0].priceUsd.value))
    requires Min(remaining, resting[0].sizeSats - resting[0].filledSizeSats) > 0
    requires forall m :: m in resting[1..] ==> m != resting[0]
    requires TotalFilled(PlanFills(taker, takerPrice, resting, remaining)) < remaining
    ensures var fillSize := Min(remaining, resting[0].sizeSats - resting[0].filledSizeSats);
      var r := PlanFills(taker, takerPrice, resting, remaining);
      var rest := PlanFills(taker, takerPrice, resting[1..], remaining - fillSize);
      && TotalFilled(rest) < remaining - fillSize
      && FillOf(r, resting[0]) == resting[0].sizeSats - resting[0].filledSizeSats
      && forall m :: m in resting[1..] ==> FillOf(r, m) == FillOf(rest, m)
  {
    var maker := resting[0];
    var fillSize := Min(remaining, maker.sizeSats - maker.filledSizeSats);
    var r := PlanFills(taker, takerPrice, resting, remaining);
    var rest := PlanFills(taker, takerPrice, resting[1..], remaining - fillSize);
    assert r == [Fill(maker, fillSize, maker.priceUsd.value)] + rest;
    assert r[1..] == rest;
    PlanAdmissible(taker, takerPrice, resting[1..], remaining - fillSize);
    if remaining - fillSize <= 0 {
      assert false;
    }
    FillOfAbsent(rest, maker);
  }

  /** A maker that no fill names receives nothing. */
  lemma {:induction false} FillOfAbsent(fills: seq<Fill>, m: Order)
    requires forall f :: f in fills ==> f.maker != m
    ensures FillOf(fills, m) == 0
  {
    if fills != [] {
      assert fills[0] in fills;
      assert forall f :: f in fills[1..] ==> f in fills;
      FillOfAbsent(fills[1..], m);
    }
  }

  /** The fills of a taker add up front to back. */
  lemma {:induction false} TotalFilledAppend(fills: seq<Fill>, f: Fill)
    ensures TotalFilled(fills + [f]) == TotalFilled(fills) + f.sizeSats
  {
    if fills != [] {
      assert (fills + [f])[1..] == fills[1..] + [f];
      TotalFilledAppend(fills[1..], f);
    }
  }

  // ---------------------------------------------------------------------
  // Executing a fill
  // ---------------------------------------------------------------------

  /** What `_execute_fill` relies on: both orders have a positive size and
      a leverage of at least 1, and the fill price is positive. */
  predicate FillReady(taker: Order, f: Fill)
  {
    && taker.sizeSats > 0 && taker.leverage >= 1
    && f.maker.sizeSats > 0 && f.maker.leverage >= 1
    && f.priceUsd > 0.0
  }

  /** `int(reserved * (part / whole))`. */
  function Share(reserved: int, part: int, whole: int): (r: int)
    requires whole > 0
    ensures reserved >= 0 && 0 < part <= whole ==> 0 <= r <= reserved
  {
    var frac := part as real / whole as real;
    var x := reserved as real * frac;
    if reserved >= 0 && 0 < part <= whole then
      FractionAtMostOne(part, whole);
      MulNonNegLe(reserved as real, frac);
      Trunc(x)
    else
      Trunc(x)
  }

  lemma FractionAtMostOne(a: int, b: int)
    requires 0 < a <= b
    ensures 0.0 < a as real / b as real <= 1.0
  {
  }

  lemma MulNonNegLe(x: real, f: real)
    requires x >= 0.0 && 0.0 <= f <= 1.0
    ensures 0.0 <= x * f <= x
  {
  }

  /** What an order reserved, recomputed at fill time: at the order's own
      price (the fill price for a market order) with the taker or maker fee. */
  function Reserved(order: Order, isTaker: bool, fillPriceUsd: real, cfg: Config): int
    requires order.leverage >= 1 && fillPriceUsd > 0.0
  {
    var feePct := if isTaker then cfg.takerFeePct else cfg.makerFeePct;
    RequiredCollateralMsats(order.sizeSats, order.leverage, OrElse(order.priceUsd, fillPriceUsd), feePct, cfg)
  }

  /** The share of the reservation that backs one fill; never more than the
      whole order reserved. */
  function FillCollateral(order: Order, isTaker: bool, fillSizeSats: int, fillPriceUsd: real, cfg: Config): (r: int)
    requires order.sizeSats > 0 && order.leverage >= 1 && fillPriceUsd > 0.0
    ensures ValidConfig(cfg) && 0 < fillSizeSats <= order.sizeSats ==>
      0 <= r <= Reserved(order, isTaker, fillPriceUsd, cfg)
  {
    var feePct := if isTaker then cfg.takerFeePct else cfg.makerFeePct;
    assert ValidConfig(cfg) ==> EffectiveFee(feePct, cfg) >= 0.0;
    Share(Reserved(order, isTaker, fillPriceUsd, cfg), fillSizeSats, order.sizeSats)
  }

  /** The position one side of a fill opens: the fill's size at the fill
      price, its share of the reservation, the order's leverage and the
      liquidation price at the configured maintenance margin. */
  function FillPosition(id: nat, order: Order, isTaker: bool, f: Fill, market: string, cfg: Config, now: int): Position
    requires order.sizeSats > 0 && order.leverage >= 1 && f.priceUsd > 0.0
  {
    Position(id, order.pubkey, market, order.side, f.sizeSats, f.priceUsd,
             FillCollateral(order, isTaker, f.sizeSats, f.priceUsd, cfg), order.leverage,
             CalcLiquidationPrice(order.side, f.priceUsd, order.leverage, 0.0, cfg), 0, now, now)
  }

  /** The long side of a fill buys, the short side sells. */
  function FillTrade(id: nat, taker: Order, f: Fill, now: int): Trade
  {
    var buyer := if taker.side == Long then taker else f.maker;
    var seller := if taker.side == Short then taker else f.maker;
    Trade(id, taker.market, buyer.pubkey, seller.pubkey, f.sizeSats, f.priceUsd, buyer.id, seller.id, now)
  }

  function MakerStatusAfter(maker: Order, fillSizeSats: int): OrderStatus
  {
    if maker.filledSizeSats + fillSizeSats >= maker.sizeSats then Filled else PartiallyFilled
  }

  /** `_execute_fill`'s first step: a position for the taker, then one for
      the maker. */
  function OpenedPositions(t: Tables, taker: Order, f: Fill, cfg: Config, now: int): Tables
    requires FillReady(taker, f)
  {
    t.(positions := t.positions + [FillPosition(t.nextId, taker, true, f, taker.market, cfg, now),
                                   FillPosition(t.nextId + 1, f.maker, false, f, taker.market, cfg, now)],
       nextId := t.nextId + 2)
  }

  /** Its second: the maker's row marked filled or partially filled. */
  function MakerMarked(t: Tables, f: Fill, now: int): Tables
  {
    t.(orders := UpdateOrderRows(t.orders, f.maker.id, MakerStatusAfter(f.maker, f.sizeSats),
                                 Some(f.maker.filledSizeSats + f.sizeSats), now))
  }

  /** Its third: the trade. */
  function TradeRecorded(t: Tables, taker: Order, f: Fill, now: int): Tables
  {
    t.(trades := t.trades + [FillTrade(t.nextId, taker, f, now)], nextId := t.nextId + 1)
  }

  /** The tables after `_execute_fill`. */
  function ApplyFill(t: Tables, taker: Order, f: Fill, cfg: Config, now: int): Tables
    requires FillReady(taker, f)
  {
    TradeRecorded(MakerMarked(OpenedPositions(t, taker, f, cfg, now), f, now), taker, f, now)
  }

  /** The fills applied in order. */
  function ApplyFills(t: Tables, taker: Order, fills: seq<Fill>, cfg: Config, now: int): Tables
    requires forall f :: f in fills ==> FillReady(taker, f)
    decreases |fills|
  {
    if fills == [] then t
    else
      var init := fills[..|fills| - 1];
      assert forall f :: f in init ==> f in fills;
      ApplyFill(ApplyFills(t, taker, init, cfg, now), taker, fills[|fills| - 1], cfg, now)
  }

  /** The two positions of a fill offset each other: opposite sides of one
      size at one entry price, so at any mark price their unrealized PnLs
      cancel. */
  lemma FillIsZeroSum(t: Tables, taker: Order, f: Fill, cfg: Config, now: int, mark: real)
    requires FillReady(taker, f) && f.maker.side == Opposite(taker.side)
    ensures var r := ApplyFill(t, taker, f, cfg, now);
      var a := r.positions[|t.positions|];
      var b := r.positions[|t.positions| + 1];
      && a.side == Opposite(b.side) && a.sizeSats == b.sizeSats == f.sizeSats
      && a.entryPriceUsd == b.entryPriceUsd == f.priceUsd
      && CalcUnrealizedPnlMsats(a.side, a.sizeSats, a.entryPriceUsd, mark)
         + CalcUnrealizedPnlMsats(b.side, b.sizeSats, b.entryPriceUsd, mark) == 0
  {
    PnlOppositeSides(f.sizeSats, f.priceUsd, mark);
  }

  /** A fill opens interest on both sides: the market's open interest grows
      by twice the fill size, and no collateral or insurance money moves. */
  lemma {:induction false} FillOpensInterest(t: Tables, taker: Order, f: Fill, cfg: Config, now: int)
    requires FillReady(taker, f)
    ensures var r := ApplyFill(t, taker, f, cfg, now);
      && OpenInterest(r.positions, taker.market) == OpenInterest(t.positions, taker.market) + 2 * f.sizeSats
      && r.accounts == t.accounts && r.insuranceFundMsats == t.insuranceFundMsats
      && r.nextId == t.nextId + 3
  {
    var r := ApplyFill(t, taker, f, cfg, now);
    var n := t.nextId;
    var a := FillPosition(n, taker, true, f, taker.market, cfg, now);
    var b := FillPosition(n + 1, f.maker, false, f, taker.market, cfg, now);
    assert r.positions == (t.positions + [a]) + [b];
    OpenInterestAppend(t.positions, a, taker.market);
    OpenInterestAppend(t.positions + [a], b, taker.market);
  }

  /** A fill only closes the maker's row: every row keeps its size and
      leverage, and the maker leaves the open book, so the book stays well
      formed. */
  lemma FillKeepsBook(t: Tables, taker: Order, f: Fill, cfg: Config, now: int)
    requires FillReady(taker, f) && BookInvariant(t.orders)
    ensures BookInvariant(ApplyFill(t, taker, f, cfg, now).orders)
  {
    StatusUpdateKeepsBook(t.orders, f.maker.id, MakerStatusAfter(f.maker, f.sizeSats),
                          Some(f.maker.filledSizeSats + f.sizeSats), now);
  }

  /** Moving a row out of `Open` (with any fill count) keeps the book well formed. */
  lemma StatusUpdateKeepsBook(orders: seq<Order>, id: nat, status: OrderStatus, filled: Option<int>, now: int)
    requires BookInvariant(orders) && status != Open
    ensures BookInvariant(UpdateOrderRows(orders, id, status, filled, now))
  {
    var r := UpdateOrderRows(orders, id, status, filled, now);
    forall o | o in r ensures WellFormedOrder(o) {
      var i :| 0 <= i < |r| && r[i] == o;
      assert orders[i] in orders;
    }
  }

  /** Every fill leaves the accounts and the insurance fund alone, keeps the
      book well formed, uses three fresh ids and opens twice its size in
      interest. */
  lemma {:induction false} ApplyFillsEffect(t: Tables, taker: Order, fills: seq<Fill>, cfg: Config, now: int)
    requires forall f :: f in fills ==> FillReady(taker, f)
    requires BookInvariant(t.orders)
    ensures var r := ApplyFills(t, taker, fills, cfg, now);
      && r.accounts == t.accounts && r.insuranceFundMsats == t.insuranceFundMsats
      && BookInvariant(r.orders)
      && r.nextId == t.nextId + 3 * |fills|
      && OpenInterest(r.positions, taker.market) == OpenInterest(t.positions, taker.market) + 2 * TotalFilled(fills)
    decreases |fills|
  {
    if fills != [] {
      var init := fills[..|fills| - 1];
      var last := fills[|fills| - 1];
      assert fills == init + [last];
      assert forall f :: f in init ==> f in fills;
      ApplyFillsEffect(t, taker, init, cfg, now);
      var mid := ApplyFills(t, taker, init, cfg, now);
      FillOpensInterest(mid, taker, last, cfg, now);
      FillKeepsBook(mid, taker, last, cfg, now);
      TotalFilledAppend(init, last);
    }
  }

  // ---------------------------------------------------------------------
  // Matching
  // ---------------------------------------------------------------------

  /** The taker's row after matching: filled once the fills cover its size,
      partially filled if anything at all was filled, otherwise untouched. */
  function TakerFinal(t: Tables, taker: Order, totalFilled: int, now: int): Tables
  {
    if totalFilled >= taker.sizeSats then t.(orders := UpdateOrderRows(t.orders, taker.id, Filled, Some(totalFilled), now))
    else if totalFilled > 0 then t.(orders := UpdateOrderRows(t.orders, taker.id, PartiallyFilled, Some(totalFilled), now))
    else t
  }

  /** A well-formed book offers only priced, fillable makers. */
  lemma RestingReady(orders: seq<Order>, taker: Order)
    requires BookInvariant(orders) && taker.sizeSats > 0 && taker.leverage >= 1
    ensures var resting := RestingMakers(orders, taker.market, taker.side);
      BookInvariant(resting) && Priced(resting)
  {
  }

  /** No maker is filled twice, and a taker left with something unfilled
      left no crossing liquidity behind. */
  predicate BestExecution(taker: Order, takerPrice: real, resting: seq<Order>, remaining: int, fills: seq<Fill>)
    requires Priced(resting)
  {
    && DistinctMakers(fills)
    && (TotalFilled(fills) < remaining ==> forall m :: m in resting ==> Unavailable(m, taker, takerPrice, fills))
  }

  /** The book `_match_order` reads meets what the plan's properties ask
      of it: a well-formed table with a primary key yields priced, sorted
      makers with distinct ids, so no maker is filled twice, and a taker
      left unfilled leaves no crossing liquidity behind. */
  lemma EngineBookPlan(orders: seq<Order>, taker: Order, takerPrice: real, remaining: int)
    requires BookInvariant(orders) && DistinctOrderIds(orders)
    ensures var resting := RestingMakers(orders, taker.market, taker.side);
      && Priced(resting)
      && BestExecution(taker, takerPrice, resting, remaining, PlanFills(taker, takerPrice, resting, remaining))
  {
    var resting := RestingMakers(orders, taker.market, taker.side);
    PlanDistinct(taker, takerPrice, resting, remaining);
    if TotalFilled(PlanFills(taker, takerPrice, resting, remaining)) < remaining {
      NoCrossingLiquidityLeft(taker, takerPrice, resting, remaining);
    }
  }

  /** `_execute_fill`: one position per side (taker first), the maker's
      status, then the trade. */
  method ExecuteFill(l: Ledger, taker: Order, f: Fill, cfg: Config, now: int)
    requires l.Valid() && FillReady(taker, f)
    modifies l
    ensures l.Valid()
    ensures l.State() == ApplyFill(old(l.State()), taker, f, cfg, now)
  {
    OpenFillPositions(l, taker, f, cfg, now);
    MarkMaker(l, f, now);
    RecordFillTrade(l, taker, f, now);
  }

  /** The loop over `(taker, True), (maker, False)`. */
  method OpenFillPositions(l: Ledger, taker: Order, f: Fill, cfg: Config, now: int)
    requires l.Valid() && FillReady(taker, f)
    modifies l
    ensures l.Valid()
    ensures l.State() == OpenedPositions(old(l.State()), taker, f, cfg, now)
  {
    var takerPos := OpenFillPosition(l, taker, true, f, taker.market, cfg, now);
    var makerPos := OpenFillPosition(l, f.maker, false, f, taker.market, cfg, now);
    assert old(l.positions) + [takerPos] + [makerPos] == old(l.positions) + [takerPos, makerPos];
  }

  /** One pass of that loop. */
  method OpenFillPosition(l: Ledger, order: Order, isTaker: bool, f: Fill, market: string, cfg: Config, now: int)
    returns (p: Position)
    requires l.Valid() && order.sizeSats > 0 && order.leverage >= 1 && f.priceUsd > 0.0
    modifies l
    ensures l.Valid()
    ensures p == FillPosition(old(l.nextId), order, isTaker, f, market, cfg, now)
    ensures l.State() == old(l.State()).(positions := old(l.positions) + [p], nextId := old(l.nextId) + 1)
  {
    var liq := CalcLiquidationPrice(order.side, f.priceUsd, order.leverage, 0.0, cfg);
    var fillCollateral := FillCollateral(order, isTaker, f.sizeSats, f.priceUsd, cfg);
    p := l.CreatePosition(order.pubkey, market, order.side, f.sizeSats, f.priceUsd, fillCollateral,
                          order.leverage, liq, now);
  }

  method MarkMaker(l: Ledger, f: Fill, now: int)
    requires l.Valid()
    modifies l
    ensures l.Valid()
    ensures l.State() == MakerMarked(old(l.State()), f, now)
  {
    ghost var expected := MakerMarked(l.State(), f, now);
    var newFilled := f.maker.filledSizeSats + f.sizeSats;
    var status := if newFilled >= f.maker.sizeSats then Filled else PartiallyFilled;
    assert expected == l.State().(orders := UpdateOrderRows(l.orders, f.maker.id, status, Some(newFilled), now));
    var _ := l.UpdateOrderStatus(f.maker.id, status, Some(newFilled), now);
  }

  method RecordFillTrade(l: Ledger, taker: Order, f: Fill, now: int)
    requires l.Valid()
    modifies l
    ensures l.Valid()
    ensures l.State() == TradeRecorded(old(l.State()), taker, f, now)
  {
    var buyer := if taker.side == Long then taker else f.maker;
    var seller := if taker.side == Short then taker else f.maker;
    var _ := l.RecordTrade(taker.market, buyer.pubkey, seller.pubkey, f.sizeSats, f.priceUsd, buyer.id, seller.id, now);
  }

  /** `_match_order`: walks the resting makers, executing each fill as it
      goes, then marks the taker. The fills are the plan of the taker, at
      its own price (the reference price for a market order), against the
      resting makers of the book as it was; the taker comes back with its
      filled size brought up to date (its status field is not refreshed). */
  method MatchOrder(l: Ledger, taker: Order, refPrice: real, cfg: Config, now: int)
    returns (fills: seq<Fill>, matched: Order)
    requires l.Valid() && BookInvariant(l.orders) && taker.sizeSats > 0 && taker.leverage >= 1
    modifies l
    ensures l.Valid() && BookInvariant(l.orders)
    ensures Priced(RestingMakers(old(l.orders), taker.market, taker.side))
    ensures fills == PlanFills(taker, OrElse(taker.priceUsd, refPrice), RestingMakers(old(l.orders), taker.market, taker.side),
                               taker.sizeSats - taker.filledSizeSats)
    ensures forall f :: f in fills ==> FillReady(taker, f)
    ensures matched == taker.(filledSizeSats := taker.filledSizeSats + TotalFilled(fills))
    ensures l.State() == TakerFinal(ApplyFills(old(l.State()), taker, fills, cfg, now), taker,
                                    taker.filledSizeSats + TotalFilled(fills), now)
  {
    var resting := RestingMakers(l.orders, taker.market, taker.side);
    var takerPrice := OrElse(taker.priceUsd, refPrice);
    RestingReady(l.orders, taker);
    fills, matched := MatchAgainst(l, taker, takerPrice, resting, cfg, now);
  }

  /** The matching loop and the taker's final status, against a given list
      of resting makers. */
  method MatchAgainst(l: Ledger, taker: Order, takerPrice: real, resting: seq<Order>, cfg: Config, now: int)
    returns (fills: seq<Fill>, matched: Order)
    requires l.Valid() && BookInvariant(l.orders) && taker.sizeSats > 0 && taker.leverage >= 1
    requires Priced(resting) && BookInvariant(resting)
    modifies l
    ensures l.Valid() && BookInvariant(l.orders)
    ensures fills == PlanFills(taker, takerPrice, resting, taker.sizeSats - taker.filledSizeSats)
    ensures forall f :: f in fills ==> FillReady(taker, f)
    ensures matched == taker.(filledSizeSats := taker.filledSizeSats + TotalFilled(fills))
    ensures l.State() == TakerFinal(ApplyFills(old(l.State()), taker, fills, cfg, now), taker,
                                    taker.filledSizeSats + TotalFilled(fills), now)
  {
    var takerRemaining;
    fills, takerRemaining, matched := SweepBook(l, taker, takerPrice, resting, cfg, now);
    MarkTaker(l, taker, taker.sizeSats - takerRemaining, now);
  }

  /** The loop of `_match_order` over the resting makers. */
  method SweepBook(l: Ledger, taker: Order, takerPrice: real, resting: seq<Order>, cfg: Config, now: int)
    returns (fills: seq<Fill>, takerRemaining: int, matched: Order)
    requires l.Valid() && BookInvariant(l.orders) && taker.sizeSats > 0 && taker.leverage >= 1
    requires Priced(resting) && BookInvariant(resting)
    modifies l
    ensures l.Valid() && BookInvariant(l.orders)
    ensures fills == PlanFills(taker, takerPrice, resting, taker.sizeSats - taker.filledSizeSats)
    ensures forall f :: f in fills ==> FillReady(taker, f)
    ensures takerRemaining == taker.sizeSats - taker.filledSizeSats - TotalFilled(fills)
    ensures matched == taker.(filledSizeSats := taker.filledSizeSats + TotalFilled(fills))
    ensures l.State() == ApplyFills(old(l.State()), taker, fills, cfg, now)
  {
    ghost var start := l.State();
    takerRemaining := taker.sizeSats - taker.filledSizeSats;
    ghost var plan := PlanFills(taker, takerPrice, resting, taker.sizeSats - taker.filledSizeSats);
    fills := [];
    matched := taker;
    var todo := resting;
    while todo != []
      invariant l.Valid() && BookInvariant(l.orders)
      invariant SweepProgress(taker, takerPrice, todo, fills, takerRemaining, matched, plan)
      invariant l.State() == ApplyFills(start, taker, fills, cfg, now)
    {
      if takerRemaining <= 0 {
        PlanEnds(taker, takerPrice, todo, takerRemaining);
        break;
      }
      var maker := todo[0];
      PlanHead(todo);
      var makerPrice := maker.priceUsd.value;
      if taker.orderType == Limit && !Crosses(taker.side, takerPrice, makerPrice) {
        PlanStops(taker, takerPrice, todo, takerRemaining);
        break;
      }
      var fillSize := Min(takerRemaining, maker.sizeSats - maker.filledSizeSats);
      if fillSize <= 0 {
        PlanSkips(taker, takerPrice, todo, takerRemaining);
        todo := todo[1..];
        continue;
      }
      fills, takerRemaining, matched := TakeMaker(l, taker, takerPrice, todo, fills, takerRemaining, matched,
                                                  start, plan, cfg, now);
      todo := todo[1..];
    }
    if todo == [] {
      PlanEnds(taker, takerPrice, todo, takerRemaining);
    }
    NothingLeft(fills, PlanFills(taker, takerPrice, todo, takerRemaining), plan);
  }

  lemma NothingLeft<T>(done: seq<T>, rest: seq<T>, whole: seq<T>)
    requires done + rest == whole && rest == []
    ensures done == whole
  {
    assert done + [] == done;
  }

  /** What the sweep has done so far: the fills made and the plan for the
      makers still to visit make up the whole plan, and the taker's remaining
      size and matched order agree with the fills. */
  ghost predicate SweepProgress(taker: Order, takerPrice: real, todo: seq<Order>, fills: seq<Fill>,
                                takerRemaining: int, matched: Order, plan: seq<Fill>)
  {
    && Priced(todo) && BookInvariant(todo)
    && fills + PlanFills(taker, takerPrice, todo, takerRemaining) == plan
    && taker.sizeSats - taker.filledSizeSats - takerRemaining == TotalFilled(fills)
    && matched == taker.(filledSizeSats := taker.filledSizeSats + TotalFilled(fills))
    && (forall f :: f in fills ==> FillReady(taker, f))
  }

  /** One fill against the head of the remaining makers moves the sweep on
      by one maker. */
  lemma ProgressStep(taker: Order, takerPrice: real, todo: seq<Order>, fills: seq<Fill>, takerRemaining: int,
                     matched: Order, plan: seq<Fill>)
    requires taker.sizeSats > 0 && taker.leverage >= 1
    requires todo != [] && takerRemaining > 0
    requires SweepProgress(taker, takerPrice, todo, fills, takerRemaining, matched, plan)
    requires !(taker.orderType == Limit && !Crosses(taker.side, takerPrice, todo[0].priceUsd.value))
    requires Min(takerRemaining, todo[0].sizeSats - todo[0].filledSizeSats) > 0
    ensures var fillSize := Min(takerRemaining, todo[0].sizeSats - todo[0].filledSizeSats);
      var f := Fill(todo[0], fillSize, todo[0].priceUsd.value);
      && FillReady(taker, f)
      && SweepProgress(taker, takerPrice, todo[1..], fills + [f], takerRemaining - fillSize,
                       matched.(filledSizeSats := matched.filledSizeSats + fillSize), plan)
  {
    var maker := todo[0];
    PlanHead(todo);
    var fillSize := Min(takerRemaining, maker.sizeSats - maker.filledSizeSats);
    var f := Fill(maker, fillSize, maker.priceUsd.value);
    PlanTakes(taker, takerPrice, todo, takerRemaining, f);
    SplitOff(fills, f, PlanFills(taker, takerPrice, todo, takerRemaining),
             PlanFills(taker, takerPrice, todo[1..], takerRemaining - f.sizeSats), plan);
    TotalFilledAppend(fills, f);
  }

  /** One pass of the loop body that fills against the head maker: the fill
      is executed on the ledger and the sweep moves on by one maker. */
  method TakeMaker(l: Ledger, taker: Order, takerPrice: real, todo: seq<Order>, fills: seq<Fill>,
                   takerRemaining: int, matched: Order, ghost start: Tables, ghost plan: seq<Fill>,
                   cfg: Config, now: int)
    returns (fills': seq<Fill>, takerRemaining': int, matched': Order)
    requires l.Valid() && BookInvariant(l.orders) && taker.sizeSats > 0 && taker.leverage >= 1
    requires todo != [] && takerRemaining > 0
    requires SweepProgress(taker, takerPrice, todo, fills, takerRemaining, matched, plan)
    requires !(taker.orderType == Limit && !Crosses(taker.side, takerPrice, todo[0].priceUsd.value))
    requires Min(takerRemaining, todo[0].sizeSats - todo[0].filledSizeSats) > 0
    requires l.State() == ApplyFills(start, taker, fills, cfg, now)
    modifies l
    ensures l.Valid() && BookInvariant(l.orders)
    ensures SweepProgress(taker, takerPrice, todo[1..], fills', takerRemaining', matched', plan)
    ensures l.State() == ApplyFills(start, taker, fills', cfg, now)
  {
    var maker := todo[0];
    var fillSize := Min(takerRemaining, maker.sizeSats - maker.filledSizeSats);
    var f := Fill(maker, fillSize, maker.priceUsd.value);
    ProgressStep(taker, takerPrice, todo, fills, takerRemaining, matched, plan);
    fills' := fills + [f];
    takerRemaining' := takerRemaining - fillSize;
    matched' := matched.(filledSizeSats := matched.filledSizeSats + fillSize);
    assert SweepProgress(taker, takerPrice, todo[1..], fills', takerRemaining', matched', plan);
    ExecuteNextFill(l, taker, f, start, fills, cfg, now);
  }

  /** The plan is empty once the book or the taker is exhausted. */
  lemma PlanEnds(taker: Order, takerPrice: real, rest: seq<Order>, remaining: int)
    requires Priced(rest) && (rest == [] || remaining <= 0)
    ensures PlanFills(taker, takerPrice, rest, remaining) == []
  {
  }

  /** `_execute_fill` inside the loop: the fold over the fills made so far
      grows by one fill, and the book stays well formed. */
  method ExecuteNextFill(l: Ledger, taker: Order, f: Fill, ghost start: Tables, ghost fills: seq<Fill>, cfg: Config, now: int)
    requires l.Valid() && BookInvariant(l.orders) && FillReady(taker, f)
    requires forall g :: g in fills ==> FillReady(taker, g)
    requires l.State() == ApplyFills(start, taker, fills, cfg, now)
    modifies l
    ensures l.Valid() && BookInvariant(l.orders)
    ensures forall g :: g in fills + [f] ==> FillReady(taker, g)
    ensures l.State() == ApplyFills(start, taker, fills + [f], cfg, now)
  {
    ghost var before := l.State();
    ExecuteFill(l, taker, f, cfg, now);
    FillKeepsBook(before, taker, f, cfg, now);
    ApplyFillsAppend(start, taker, fills, f, cfg, now);
  }

  /** Moving the head of the remaining plan onto the fills made so far. */
  lemma SplitOff<T>(done: seq<T>, x: T, rest: seq<T>, tail: seq<T>, whole: seq<T>)
    requires done + rest == whole && rest == [x] + tail
    ensures (done + [x]) + tail == whole
  {
    assert done + ([x] + tail) == (done + [x]) + tail;
  }

  /** The next maker is a priced, fillable order, and the makers after it
      are as well formed as the ones before. */
  lemma PlanHead(rest: seq<Order>)
    requires rest != [] && Priced(rest) && BookInvariant(rest)
    ensures Priced(rest[1..]) && BookInvariant(rest[1..])
    ensures rest[0].priceUsd.Some? && rest[0].priceUsd.value > 0.0
    ensures rest[0].sizeSats > 0 && rest[0].leverage >= 1
  {
    assert rest[0] in rest;
    assert forall o :: o in rest[1..] ==> o in rest;
  }

  /** A limit taker stops at the first maker its price does not cross. */
  lemma PlanStops(taker: Order, takerPrice: real, rest: seq<Order>, remaining: int)
    requires rest != [] && Priced(rest) && remaining > 0
    requires taker.orderType == Limit && !Crosses(taker.side, takerPrice, rest[0].priceUsd.value)
    ensures PlanFills(taker, takerPrice, rest, remaining) == []
  {
  }

  /** A maker with nothing left to fill is passed over. */
  lemma PlanSkips(taker: Order, takerPrice: real, rest: seq<Order>, remaining: int)
    requires rest != [] && Priced(rest) && remaining > 0
    requires !(taker.orderType == Limit && !Crosses(taker.side, takerPrice, rest[0].priceUsd.value))
    requires Min(remaining, rest[0].sizeSats - rest[0].filledSizeSats) <= 0
    ensures Priced(rest[1..])
    ensures PlanFills(taker, takerPrice, rest, remaining) == PlanFills(taker, takerPrice, rest[1..], remaining)
  {
    assert forall o :: o in rest[1..] ==> o in rest;
  }

  /** Otherwise the maker is filled for the smaller of the two remainders,
      at its own price. */
  lemma PlanTakes(taker: Order, takerPrice: real, rest: seq<Order>, remaining: int, f: Fill)
    requires rest != [] && Priced(rest) && remaining > 0
    requires !(taker.orderType == Limit && !Crosses(taker.side, takerPrice, rest[0].priceUsd.value))
    requires f == Fill(rest[0], Min(remaining, rest[0].sizeSats - rest[0].filledSizeSats), rest[0].priceUsd.value)
    requires f.sizeSats > 0
    ensures Priced(rest[1..])
    ensures PlanFills(taker, takerPrice, rest, remaining)
         == [f] + PlanFills(taker, takerPrice, rest[1..], remaining - f.sizeSats)
  {
    assert forall o :: o in rest[1..] ==> o in rest;
  }

  /** Applying one more fill extends the fold by that fill. */
  lemma ApplyFillsAppend(t: Tables, taker: Order, fills: seq<Fill>, f: Fill, cfg: Config, now: int)
    requires forall g :: g in fills ==> FillReady(taker, g)
    requires FillReady(taker, f)
    ensures forall g :: g in fills + [f] ==> FillReady(taker, g)
    ensures ApplyFills(t, taker, fills + [f], cfg, now) == ApplyFill(ApplyFills(t, taker, fills, cfg, now), taker, f, cfg, now)
  {
    assert (fills + [f])[..|fills|] == fills;
  }

  /** The end of `_match_order`: the taker marked filled or partially filled. */
  method MarkTaker(l: Ledger, taker: Order, totalFilled: int, now: int)
    requires l.Valid() && BookInvariant(l.orders)
    modifies l
    ensures l.Valid() && BookInvariant(l.orders)
    ensures l.State() == TakerFinal(old(l.State()), taker, totalFilled, now)
  {
    if totalFilled >= taker.sizeSats {
      StatusUpdateKeepsBook(l.orders, taker.id, Filled, Some(totalFilled), now);
      var _ := l.UpdateOrderStatus(taker.id, Filled, Some(totalFilled), now);
    } else if totalFilled > 0 {
      StatusUpdateKeepsBook(l.orders, taker.id, PartiallyFilled, Some(totalFilled), now);
      var _ := l.UpdateOrderStatus(taker.id, PartiallyFilled, Some(totalFilled), now);
    }
  }
}
