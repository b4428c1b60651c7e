/** The engine's public entry points (futures_engine.py:147-234, 384-430):
    placing an order behind a collateral reservation, cancelling an open
    order with a refund, and closing a position at the mark price. Each
    entry point is a method on the `Ledger`, proved against a function that
    says what it decides and a function that says what the tables become.
    The oracle's answer (`mark`) and the clock (`now`) are parameters. */
module FuturesApi {
  import opened Common
  import opened Margin
  import opened FuturesRecords
  import opened OrderBook
  import opened FuturesLedger
  import opened FuturesEngine
  import opened Liquidation

  /** The messages the entry points return in their error slot, one
      constructor per message. `DivisionByZero` is not a message: it is the
      ZeroDivisionError the PnL formula raises for an entry price of 0. */
  datatype EngineError =
    | UnknownMarket(market: string)
    | BadSide
    | BadOrderType
    | NonPositiveSize
    | LeverageOutOfRange(maxLeverage: int)
    | LimitPriceRequired
    | OracleUnavailable
    | InsufficientCollateral(needMsats: int, haveMsats: int)
    | ReserveFailed
    | OrderNotFound
    | NotYourOrder
    | NotCancellable(status: OrderStatus)
    | PositionNotFound
    | NotYourPosition
    | DivisionByZero

  /** `(value, None)` on success, `(None or False, message)` on refusal. */
  datatype Reply<+T> = Done(value: T) | Refused(error: EngineError)

  // ---------------------------------------------------------------------
  // Parsing the request
  // ---------------------------------------------------------------------

  function SideName(s: Side): string
  {
    if s == Long then "long" else "short"
  }

  /** Only the two spellings the engine accepts name a side, and each names
      the side it spells. */
  function ParseSide(s: string): (r: Option<Side>)
    ensures r.Some? <==> s == "long" || s == "short"
    ensures r.Some? ==> SideName(r.value) == s
  {
    if s == "long" then Some(Long) else if s == "short" then Some(Short) else None
  }

  function OrderTypeName(t: OrderType): string
  {
    if t == Limit then "limit" else "market"
  }

  function ParseOrderType(s: string): (r: Option<OrderType>)
    ensures r.Some? <==> s == "limit" || s == "market"
    ensures r.Some? ==> OrderTypeName(r.value) == s
  {
    if s == "limit" then Some(Limit) else if s == "market" then Some(Market) else None
  }

  /** `price_usd or get_mark_price(market)`, with `not ref_price` as None:
      the order's own price when it has a usable one, else the oracle's. */
  function RefPrice(priceUsd: Option<real>, mark: Option<real>): (r: Option<real>)
    ensures r.Some? ==> r.value != 0.0
    ensures r.None? <==> !Truthy(priceUsd) && !Truthy(mark)
    ensures Truthy(priceUsd) ==> r == priceUsd
  {
    if Truthy(priceUsd) then priceUsd else if Truthy(mark) then mark else None
  }

  // ---------------------------------------------------------------------
  // Placement
  // ---------------------------------------------------------------------

  /** What placement settles before it writes a row: the parsed side and
      type, the reference price and the collateral to reserve. */
  datatype Admission = Admission(side: Side, orderType: OrderType, refPrice: real, neededMsats: int)

  /** The checks `place_order` makes of the request itself, in the
      source's order; the first one that fails names the refusal. */
  function RequestError(market: string, side: string, orderType: string, sizeSats: int, leverage: int,
                        priceUsd: Option<real>, cfg: Config): (r: Option<EngineError>)
    ensures r.None? <==>
      && KnownMarket(market) && ParseSide(side).Some? && ParseOrderType(orderType).Some?
      && sizeSats > 0 && 1 <= leverage <= cfg.maxLeverage
      && (orderType == "limit" ==> priceUsd.Some? && priceUsd.value > 0.0)
  {
    if !KnownMarket(market) then Some(UnknownMarket(market))
    else if ParseSide(side).None? then Some(BadSide)
    else if ParseOrderType(orderType).None? then Some(BadOrderType)
    else if sizeSats <= 0 then Some(NonPositiveSize)
    else if leverage < 1 || leverage > cfg.maxLeverage then Some(LeverageOutOfRange(cfg.maxLeverage))
    else if orderType == "limit" && (priceUsd.None? || priceUsd.value <= 0.0) then Some(LimitPriceRequired)
    else None
  }

  /** All of `place_order`'s checks: the request's, then a reference price,
      enough collateral, and the reservation itself, which fails only for a
      trader without an account. */
  function Admit(accounts: map<string, Account>, pubkey: string, market: string, side: string, orderType: string,
                 sizeSats: int, leverage: int, priceUsd: Option<real>, mark: Option<real>, cfg: Config, now: int)
    : (r: Reply<Admission>)
    ensures r.Done? ==> pubkey in accounts && r.value.neededMsats <= accounts[pubkey].collateralMsats
    ensures r.Refused? && r.error.InsufficientCollateral? ==> r.error.haveMsats < r.error.needMsats
  {
    var err := RequestError(market, side, orderType, sizeSats, leverage, priceUsd, cfg);
    if err.Some? then Refused(err.value)
    else
      var ref := RefPrice(priceUsd, mark);
      if ref.None? then Refused(OracleUnavailable)
      else
        var needed := RequiredCollateralMsats(sizeSats, leverage, ref.value, cfg.takerFeePct, cfg);
        var have := Collateral(accounts, pubkey);
        if have < needed then Refused(InsufficientCollateral(needed, have))
        else if Debited(accounts, pubkey, needed, now).None? then Refused(ReserveFailed)
        else Done(Admission(ParseSide(side).value, ParseOrderType(orderType).value, ref.value, needed))
  }

  /** An admitted request names a known market, a side and a type spelled
      as the engine spells them, a positive size, an allowed leverage and,
      for a limit order, a positive price; its reference price is its own
      price when that is usable; the reservation is the collateral the
      order requires, at least its initial margin and within the trader's
      balance. */
  lemma AdmitSound(accounts: map<string, Account>, pubkey: string, market: string, side: string, orderType: string,
                   sizeSats: int, leverage: int, priceUsd: Option<real>, mark: Option<real>, cfg: Config, now: int)
    requires Admit(accounts, pubkey, market, side, orderType, sizeSats, leverage, priceUsd, mark, cfg, now).Done?
    ensures var a := Admit(accounts, pubkey, market, side, orderType, sizeSats, leverage, priceUsd, mark, cfg, now).value;
      && KnownMarket(market) && sizeSats > 0 && 1 <= leverage <= cfg.maxLeverage
      && SideName(a.side) == side && OrderTypeName(a.orderType) == orderType
      && (a.orderType == Limit ==> priceUsd.Some? && priceUsd.value > 0.0)
      && a.refPrice != 0.0
      && (Truthy(priceUsd) ==> a.refPrice == priceUsd.value)
      && a.neededMsats == RequiredCollateralMsats(sizeSats, leverage, a.refPrice, cfg.takerFeePct, cfg)
      && (ValidConfig(cfg) ==> a.neededMsats >= SatsToMsats(sizeSats) / leverage >= 0)
  {
  }

  /** Only a request without a usable price of its own is refused for want
      of an oracle price, and only when the oracle has none either. */
  lemma OracleNeededOnlyWithoutPrice(accounts: map<string, Account>, pubkey: string, market: string, side: string,
                                     orderType: string, sizeSats: int, leverage: int, priceUsd: Option<real>,
                                     mark: Option<real>, cfg: Config, now: int)
    requires Admit(accounts, pubkey, market, side, orderType, sizeSats, leverage, priceUsd, mark, cfg, now)
             == Refused(OracleUnavailable)
    ensures !Truthy(priceUsd) && !Truthy(mark)
  {
  }

  /** The converse: a request that passes every check is admitted. */
  lemma AdmitComplete(accounts: map<string, Account>, pubkey: string, market: string, side: Side, orderType: OrderType,
                      sizeSats: int, leverage: int, priceUsd: Option<real>, mark: Option<real>, cfg: Config, now: int)
    requires KnownMarket(market) && sizeSats > 0 && 1 <= leverage <= cfg.maxLeverage
    requires orderType == Limit ==> priceUsd.Some? && priceUsd.value > 0.0
    requires Truthy(priceUsd) || Truthy(mark)
    requires pubkey in accounts
    requires RequiredCollateralMsats(sizeSats, leverage, RefPrice(priceUsd, mark).value, cfg.takerFeePct, cfg)
             <= accounts[pubkey].collateralMsats
    ensures var r := Admit(accounts, pubkey, market, SideName(side), OrderTypeName(orderType),
                           sizeSats, leverage, priceUsd, mark, cfg, now);
      r.Done? && r.value.side == side && r.value.orderType == orderType
  {
  }

  /** The row `create_order` writes for an admitted request. */
  function NewOrder(id: nat, pubkey: string, market: string, a: Admission, sizeSats: int, leverage: int,
                    priceUsd: Option<real>, nostrEventId: Option<string>, now: int): Order
  {
    Order(id, pubkey, market, a.side, a.orderType, sizeSats, priceUsd, leverage, Open, 0, nostrEventId, now, now)
  }

  /** The tables once the reservation is debited and the order row written. */
  function Booked(t: Tables, pubkey: string, neededMsats: int, order: Order, now: int): Tables
    requires pubkey in t.accounts && neededMsats <= t.accounts[pubkey].collateralMsats
  {
    t.(accounts := Debited(t.accounts, pubkey, neededMsats, now).value,
       orders := t.orders + [order], nextId := t.nextId + 1)
  }

  /** `place_order`: the checks, the reservation, the new row, then matching
      at the reference price. The order returned is the row as written with
      the matched size recorded, as the source's dictionary is after
      `_match_order`; its status is the row's status at creation. The fills
      are the ones `_match_order` returns and the source discards. */
  method PlaceOrder(l: Ledger, pubkey: string, market: string, side: string, orderType: string, sizeSats: int,
                    leverage: int, priceUsd: Option<real>, nostrEventId: Option<string>, mark: Option<real>,
                    cfg: Config, now: int)
    returns (r: Reply<Order>, ghost fills: seq<Fill>)
    requires l.Valid() && BookInvariant(l.orders)
    modifies l
    ensures l.Valid() && BookInvariant(l.orders)
    ensures var a := Admit(old(l.accounts), pubkey, market, side, orderType, sizeSats, leverage, priceUsd, mark, cfg, now);
      a.Refused? ==> r == Refused(a.error) && l.State() == old(l.State())
    ensures var a := Admit(old(l.accounts), pubkey, market, side, orderType, sizeSats, leverage, priceUsd, mark, cfg, now);
      a.Done? ==>
        var taker := NewOrder(old(l.nextId), pubkey, market, a.value, sizeSats, leverage, priceUsd, nostrEventId, now);
        var booked := Booked(old(l.State()), pubkey, a.value.neededMsats, taker, now);
        && BookInvariant(booked.orders) && DistinctOrderIds(booked.orders)
        && fills == PlanFills(taker, OrElse(priceUsd, a.value.refPrice), RestingMakers(booked.orders, market, taker.side), sizeSats)
        && (forall f :: f in fills ==> FillReady(taker, f))
        && r == Done(taker.(filledSizeSats := TotalFilled(fills)))
        && l.State() == TakerFinal(ApplyFills(booked, taker, fills, cfg, now), taker, TotalFilled(fills), now)
  {
    fills := [];
    var err := RequestError(market, side, orderType, sizeSats, leverage, priceUsd, cfg);
    if err.Some? {
      return Refused(err.value), fills;
    }
    var parsedSide := ParseSide(side).value;
    var parsedType := ParseOrderType(orderType).value;
    var refPrice := RefPrice(priceUsd, mark);
    if refPrice.None? {
      return Refused(OracleUnavailable), fills;
    }
    var needed := RequiredCollateralMsats(sizeSats, leverage, refPrice.value, cfg.takerFeePct, cfg);
    var collateral := l.GetCollateralMsats(pubkey);
    if collateral < needed {
      return Refused(InsufficientCollateral(needed, collateral)), fills;
    }
    var reserved := l.DebitCollateral(pubkey, needed, now);
    if reserved.None? {
      return Refused(ReserveFailed), fills;
    }
    var order := l.CreateOrder(pubkey, market, parsedSide, parsedType, sizeSats, leverage,
                               priceUsd, nostrEventId, now);
    ghost var a := Admission(parsedSide, parsedType, refPrice.value, needed);
    assert Admit(old(l.accounts), pubkey, market, side, orderType, sizeSats, leverage, priceUsd, mark, cfg, now) == Done(a);
    assert order == NewOrder(old(l.nextId), pubkey, market, a, sizeSats, leverage, priceUsd, nostrEventId, now);
    ghost var booked := l.State();
    assert booked == Booked(old(l.State()), pubkey, needed, order, now);
    var matched;
    fills, matched := MatchOrder(l, order, refPrice.value, cfg, now);
    assert l.State() == TakerFinal(ApplyFills(booked, order, fills, cfg, now), order, TotalFilled(fills), now);
    r := Done(matched);
  }

  /** Whatever the fills, placement moves collateral only by the
      reservation: the trader's balance drops by exactly the amount
      reserved (never below zero), every other account and the insurance
      fund are untouched, and open interest grows by twice the matched size. */
  lemma PlacementMovesOnlyTheReservation(t: Tables, pubkey: string, neededMsats: int, taker: Order,
                                         fills: seq<Fill>, cfg: Config, now: int)
    requires pubkey in t.accounts && 0 <= neededMsats <= t.accounts[pubkey].collateralMsats
    requires BookInvariant(t.orders + [taker])
    requires forall f :: f in fills ==> FillReady(taker, f)
    ensures var r := TakerFinal(ApplyFills(Booked(t, pubkey, neededMsats, taker, now), taker, fills, cfg, now),
                                taker, TotalFilled(fills), now);
      && Collateral(r.accounts, pubkey) == Collateral(t.accounts, pubkey) - neededMsats >= 0
      && SameExcept(t.accounts, r.accounts, pubkey)
      && r.insuranceFundMsats == t.insuranceFundMsats
      && OpenInterest(r.positions, taker.market) == OpenInterest(t.positions, taker.market) + 2 * TotalFilled(fills)
  {
    ApplyFillsEffect(Booked(t, pubkey, neededMsats, taker, now), taker, fills, cfg, now);
  }

  // ---------------------------------------------------------------------
  // Cancellation
  // ---------------------------------------------------------------------

  /** `cancel_order`'s checks, in order: the row exists, belongs to the
      caller and is still open. A partially filled order is not open, so it
      can no longer be cancelled. */
  function CancelCheck(orders: seq<Order>, pubkey: string, id: nat): (r: Reply<Order>)
    ensures r.Done? <==> exists o :: o in orders && o.id == id && o.pubkey == pubkey && o.status == Open
                                     && FindOrder(orders, id) == Some(o)
    ensures r.Done? ==> r.value in orders && r.value.id == id && r.value.pubkey == pubkey && r.value.status == Open
    ensures r == Refused(OrderNotFound) <==> forall o :: o in orders ==> o.id != id
  {
    match FindOrder(orders, id)
    case None => Refused(OrderNotFound)
    case Some(o) =>
      if o.pubkey != pubkey then Refused(NotYourOrder)
      else if o.status != Open then Refused(NotCancellable(o.status))
      else Done(o)
  }

  /** The refund: the reservation of the unfilled remainder at the order's
      own price, or the mark price, or 1. */
  function CancelRefund(o: Order, mark: Option<real>, cfg: Config): (r: int)
    requires o.leverage >= 1
    ensures ValidConfig(cfg) && o.sizeSats >= o.filledSizeSats ==> r >= 0
  {
    RequiredCollateralMsats(o.sizeSats - o.filledSizeSats, o.leverage, OrElse(o.priceUsd, OrElse(mark, 1.0)),
                            cfg.takerFeePct, cfg)
  }

  /** The tables after cancelling `o`: its row marked cancelled (the fill
      count kept), then the refund credited. */
  function CancelledTables(t: Tables, o: Order, refund: int, now: int): Tables
  {
    t.(orders := UpdateOrderRows(t.orders, o.id, Cancelled, None, now),
       accounts := Credited(t.accounts, o.pubkey, refund, now))
  }

  /** `cancel_order`. */
  method CancelOrder(l: Ledger, pubkey: string, id: nat, mark: Option<real>, cfg: Config, now: int)
    returns (r: Reply<()>)
    requires l.Valid() && BookInvariant(l.orders)
    modifies l
    ensures l.Valid() && BookInvariant(l.orders)
    ensures var c := CancelCheck(old(l.orders), pubkey, id);
      && (c.Refused? ==> r == Refused(c.error) && l.State() == old(l.State()))
      && (c.Done? ==> r == Done(()) && l.State() == CancelledTables(old(l.State()), c.value, CancelRefund(c.value, mark, cfg), now))
  {
    var order := l.GetOrder(id);
    if order.None? {
      return Refused(OrderNotFound);
    }
    var o := order.value;
    if o.pubkey != pubkey {
      return Refused(NotYourOrder);
    }
    if o.status != Open {
      return Refused(NotCancellable(o.status));
    }
    assert WellFormedOrder(o);
    var refund := CancelRefund(o, mark, cfg);
    StatusUpdateKeepsBook(l.orders, id, Cancelled, None, now);
    var _ := l.UpdateOrderStatus(id, Cancelled, None, now);
    var _ := l.CreditCollateral(pubkey, refund, now);
    r := Done(());
  }

  /** Placing an order that does not match and then cancelling it gives the
      trader back exactly what was reserved, whatever the oracle says at
      either moment: the reservation does not depend on the price it is
      computed at. */
  lemma {:induction false} CancelRefundsReservation(accounts: map<string, Account>, pubkey: string, market: string,
                                  side: string, orderType: string, sizeSats: int, leverage: int,
                                  priceUsd: Option<real>, nostrEventId: Option<string>,
                                  markAtPlace: Option<real>, markAtCancel: Option<real>, cfg: Config, id: nat, t1: int, t2: int)
    requires Admit(accounts, pubkey, market, side, orderType, sizeSats, leverage, priceUsd, markAtPlace, cfg, t1).Done?
    ensures var a := Admit(accounts, pubkey, market, side, orderType, sizeSats, leverage, priceUsd, markAtPlace, cfg, t1).value;
      var o := NewOrder(id, pubkey, market, a, sizeSats, leverage, priceUsd, nostrEventId, t1);
      var placed := Debited(accounts, pubkey, a.neededMsats, t1).value;
      && CancelRefund(o, markAtCancel, cfg) == a.neededMsats
      && Collateral(Credited(placed, pubkey, CancelRefund(o, markAtCancel, cfg), t2), pubkey) == Collateral(accounts, pubkey)
  {
    var a := Admit(accounts, pubkey, market, side, orderType, sizeSats, leverage, priceUsd, markAtPlace, cfg, t1).value;
    var o := NewOrder(id, pubkey, market, a, sizeSats, leverage, priceUsd, nostrEventId, t1);
    RequiredCollateralPriceFree(sizeSats, leverage, a.refPrice, OrElse(priceUsd, OrElse(markAtCancel, 1.0)), cfg.takerFeePct, cfg);
    assert o.sizeSats - o.filledSizeSats == sizeSats;
  }

  /** A cancelled order stays cancelled: a second request is refused, so a
      reservation is never refunded twice. */
  lemma CancelTwiceRefused(t: Tables, o: Order, refund: int, mark: Option<real>, now: int)
    requires DistinctOrderIds(t.orders) && o in t.orders
    ensures var c := CancelCheck(CancelledTables(t, o, refund, now).orders, o.pubkey, o.id);
      c == Refused(NotCancellable(Cancelled))
  {
    FindOrderDistinct(t.orders, o);
    UpdateOrderRowsFind(t.orders, o.id, Cancelled, None, now, o.id);
    var after := UpdateOrderRows(t.orders, o.id, Cancelled, None, now);
    assert FindOrder(after, o.id) == Some(WithStatus(o, Cancelled, None, now));
    assert CancelledTables(t, o, refund, now).orders == after;
  }

  /** With unique ids, looking a row up by its own id finds that row. */
  lemma {:induction false} FindOrderDistinct(s: seq<Order>, o: Order)
    requires DistinctOrderIds(s) && o in s
    ensures FindOrder(s, o.id) == Some(o)
  {
    if s[0] != o {
      assert s[0].id != o.id by {
        var i :| 0 <= i < |s| && s[i] == o;
      }
      assert o in s[1..];
      FindOrderDistinct(s[1..], o);
    }
  }

  // ---------------------------------------------------------------------
  // Closing a position
  // ---------------------------------------------------------------------

  /** How a closing position's value is settled: what the trader receives,
      what the insurance fund pays in to cover a deficit, and the fee it
      takes on a profit. */
  datatype Settlement = Settlement(settlementMsats: int, drawMsats: int, feeMsats: int)

  /** A deficit is drawn from the fund and the settlement floored at 0; a
      settlement above the collateral pays the fund a fee on the gain. */
  function SettleClose(collateralMsats: int, pnlMsats: int, feePct: real): (s: Settlement)
    ensures s.settlementMsats + s.feeMsats - s.drawMsats == collateralMsats + pnlMsats
    ensures s.drawMsats >= 0 && (s.drawMsats > 0 <==> collateralMsats + pnlMsats < 0)
    ensures collateralMsats + pnlMsats <= collateralMsats && collateralMsats + pnlMsats >= 0 ==>
      s == Settlement(collateralMsats + pnlMsats, 0, 0)
    ensures 0.0 <= feePct <= 1.0 && pnlMsats > 0 && collateralMsats >= 0 ==>
      0 <= s.feeMsats <= pnlMsats && collateralMsats <= s.settlementMsats <= collateralMsats + pnlMsats
    ensures 0.0 <= feePct <= 1.0 && collateralMsats >= 0 ==> s.settlementMsats >= 0
  {
    var gross := collateralMsats + pnlMsats;
    var draw := if gross < 0 then Abs(gross) else 0;
    var floored := if gross < 0 then 0 else gross;
    var fee := if floored > collateralMsats then Trunc((floored - collateralMsats) as real * feePct) else 0;
    if floored > collateralMsats && 0.0 <= feePct <= 1.0 then
      MulFractionBounds(floored - collateralMsats, feePct);
      Settlement(floored - fee, draw, fee)
    else
      Settlement(floored - fee, draw, fee)
  }

  /** `int(x * p)` for a gain `x` and a fraction `p` lies between 0 and `x`. */
  lemma MulFractionBounds(x: int, p: real)
    requires x >= 0 && 0.0 <= p <= 1.0
    ensures 0 <= Trunc(x as real * p) <= x
  {
    MulNonNegLe(x as real, p);
  }

  /** The fund's side of a close: the draw (if any), then the fee (if the
      settlement exceeded the collateral, even when it truncates to 0). */
  function FundAfterClose(t: Tables, collateralMsats: int, s: Settlement, now: int): Tables
  {
    var t1 := if s.drawMsats > 0
      then t.(insuranceFundMsats := FundAfterDebit(t.insuranceFundMsats, s.drawMsats), insuranceFundUpdatedAt := now)
      else t;
    if s.settlementMsats + s.feeMsats > collateralMsats
    then t1.(insuranceFundMsats := t1.insuranceFundMsats + s.feeMsats, insuranceFundUpdatedAt := now)
    else t1
  }

  /** The tables after closing `pos`: the fund settled, the row deleted and
      a positive settlement credited. */
  function ClosedTables(t: Tables, pos: Position, s: Settlement, now: int): Tables
  {
    UserPaid(PositionClosed(FundAfterClose(t, pos.collateralMsats, s, now), pos.id), pos.pubkey, s.settlementMsats, now)
  }

  /** What `close_position` reports on success. */
  datatype CloseSummary = CloseSummary(positionId: nat, pnlMsats: int, settlementMsats: int, markPriceUsd: real,
                                       insuranceDrawMsats: int, feeMsats: int)

  /** `close_position`'s checks and the settlement they lead to. */
  function CloseCheck(positions: seq<Position>, pubkey: string, id: nat, mark: Option<real>, cfg: Config)
    : (r: Reply<CloseSummary>)
    ensures r.Done? ==> Truthy(mark) && r.value.markPriceUsd == mark.value && r.value.positionId == id
    ensures r.Done? ==> exists p :: p in positions && p.id == id && p.pubkey == pubkey && p.entryPriceUsd != 0.0
    ensures r == Refused(PositionNotFound) <==> forall p :: p in positions ==> p.id != id
  {
    match FindPosition(positions, id)
    case None => Refused(PositionNotFound)
    case Some(p) =>
      if p.pubkey != pubkey then Refused(NotYourPosition)
      else if !Truthy(mark) then Refused(OracleUnavailable)
      else if p.entryPriceUsd == 0.0 then Refused(DivisionByZero)
      else
        var pnl := CalcUnrealizedPnlMsats(p.side, p.sizeSats, p.entryPriceUsd, mark.value);
        var s := SettleClose(p.collateralMsats, pnl, cfg.insuranceFundFeePct);
        Done(CloseSummary(id, pnl, s.settlementMsats, mark.value, s.drawMsats, s.feeMsats))
  }

  function SummarySettlement(c: CloseSummary): Settlement
  {
    Settlement(c.settlementMsats, c.insuranceDrawMsats, c.feeMsats)
  }

  /** `close_position`. */
  method ClosePosition(l: Ledger, pubkey: string, id: nat, mark: Option<real>, cfg: Config, now: int)
    returns (r: Reply<CloseSummary>)
    requires l.Valid()
    modifies l
    ensures l.Valid()
    ensures var c := CloseCheck(old(l.positions), pubkey, id, mark, cfg);
      && r == c
      && (c.Refused? ==> l.State() == old(l.State()))
      && (c.Done? ==> l.State() == ClosedTables(old(l.State()), FindPosition(old(l.positions), id).value,
                                                SummarySettlement(c.value), now))
  {
    var found := l.GetPosition(id);
    if found.None? {
      return Refused(PositionNotFound);
    }
    var pos := found.value;
    if pos.pubkey != pubkey {
      return Refused(NotYourPosition);
    }
    if !Truthy(mark) {
      return Refused(OracleUnavailable);
    }
    if pos.entryPriceUsd == 0.0 {
      return Refused(DivisionByZero);
    }
    var pnl := CalcUnrealizedPnlMsats(pos.side, pos.sizeSats, pos.entryPriceUsd, mark.value);
    var s := SettleClose(pos.collateralMsats, pnl, cfg.insuranceFundFeePct);
    SettleFund(l, pos.collateralMsats, s, now);
    var _ := l.ClosePosition(id);
    if s.settlementMsats > 0 {
      var _ := l.CreditCollateral(pubkey, s.settlementMsats, now);
    }
    r := Done(CloseSummary(id, pnl, s.settlementMsats, mark.value, s.drawMsats, s.feeMsats));
  }

  /** The insurance-fund half of `close_position`. */
  method SettleFund(l: Ledger, collateralMsats: int, s: Settlement, now: int)
    requires l.Valid()
    modifies l
    ensures l.Valid()
    ensures l.State() == FundAfterClose(old(l.State()), collateralMsats, s, now)
  {
    if s.drawMsats > 0 {
      var _ := l.DebitInsuranceFund(s.drawMsats, now);
    }
    if s.settlementMsats + s.feeMsats > collateralMsats {
      var _ := l.CreditInsuranceFund(s.feeMsats, now);
    }
  }

  /** Closing moves value between the trader and the fund only: when the
      fund can cover any deficit, the trader's balance plus the fund grow by
      exactly the position's collateral plus its PnL. The row is gone. */
  lemma {:induction false} CloseConservesValue(t: Tables, pos: Position, pnlMsats: int, cfg: Config, now: int)
    requires ValidConfig(cfg) && pos.collateralMsats >= 0
    requires var s := SettleClose(pos.collateralMsats, pnlMsats, cfg.insuranceFundFeePct);
      t.insuranceFundMsats >= s.drawMsats
    ensures var s := SettleClose(pos.collateralMsats, pnlMsats, cfg.insuranceFundFeePct);
      var r := ClosedTables(t, pos, s, now);
      && Collateral(r.accounts, pos.pubkey) + r.insuranceFundMsats
         == Collateral(t.accounts, pos.pubkey) + t.insuranceFundMsats + pos.collateralMsats + pnlMsats
      && SameExcept(t.accounts, r.accounts, pos.pubkey)
      && FindPosition(r.positions, pos.id).None?
  {
    var s := SettleClose(pos.collateralMsats, pnlMsats, cfg.insuranceFundFeePct);
    var f := FundAfterClose(t, pos.collateralMsats, s, now);
    assert f.insuranceFundMsats == t.insuranceFundMsats - s.drawMsats + s.feeMsats;
  }

  /** A position closed at its entry price hands back its collateral in
      full: no PnL, no fee, no draw. */
  lemma CloseAtEntryReturnsCollateral(positions: seq<Position>, pubkey: string, id: nat, cfg: Config)
    requires var p := FindPosition(positions, id);
      p.Some? && p.value.pubkey == pubkey && p.value.entryPriceUsd != 0.0 && p.value.collateralMsats >= 0
    ensures var p := FindPosition(positions, id).value;
      CloseCheck(positions, pubkey, id, Some(p.entryPriceUsd), cfg)
      == Done(CloseSummary(id, 0, p.collateralMsats, p.entryPriceUsd, 0, 0))
  {
  }
}
