/** The liquidation engine (liquidation_engine.py): a position whose margin
    ratio at the mark price falls strictly below the maintenance margin is
    closed, its equity split between the user and the insurance fund. The
    oracle's mark price is a parameter, the same for the whole scan. */
module Liquidation {
  import opened Common
  import opened Margin
  import opened FuturesRecords
  import opened FuturesLedger

  const LiquidationFeePct: real := 0.005

  /** `int(notional * 0.005)`. */
  function LiquidationFee(sizeSats: int, mark: real): (r: int)
    requires mark != 0.0
    ensures sizeSats >= 0 ==> 0 <= r <= SatsToMsats(sizeSats)
  {
    Trunc(NotionalMsats(sizeSats, mark) as real * LiquidationFeePct)
  }

  /** The three ways equity is settled. */
  datatype Split =
    | PayFee(toUser: int, fee: int)   // equity covers the fee: the rest goes to the user
    | PartialFee(taken: int)          // positive equity below the fee: the fund takes all of it
    | BadDebt(draw: int)              // no equity: the fund covers the deficit and the fee

  function SplitEquity(equity: int, fee: int): (r: Split)
    ensures r.PayFee? <==> equity >= fee
    ensures r.PayFee? ==> r.fee == fee && r.toUser == equity - fee && r.toUser >= 0
    ensures r.PartialFee? <==> 0 < equity < fee
    ensures r.PartialFee? ==> r.taken == equity
    ensures r.BadDebt? <==> equity <= 0 && equity < fee
    ensures r.BadDebt? ==> r.draw == Abs(equity) + fee
  {
    if equity >= fee then PayFee(equity - fee, fee)
    else if equity > 0 then PartialFee(equity)
    else BadDebt(Abs(equity) + fee)
  }

  function ToUser(s: Split): int
  {
    if s.PayFee? then s.toUser else 0
  }

  /** The insurance fund's balance after the split. */
  function FundAfter(balance: int, s: Split): int
  {
    match s
    case PayFee(_, fee) => balance + fee
    case PartialFee(taken) => balance + taken
    case BadDebt(draw) => FundAfterDebit(balance, draw)
  }

  /** With positive equity every msat of it is accounted for: the user and
      the fund share it, and the fund never takes more than the fee. With
      none, the user receives nothing and the fund pays out at most the
      deficit plus the fee, never going below zero. */
  lemma {:induction false} SplitConservesEquity(equity: int, fee: int, balance: int)
    requires fee >= 0
    ensures var s := SplitEquity(equity, fee);
      ToUser(s) >= 0 &&
      (equity > 0 ==> ToUser(s) + (FundAfter(balance, s) - balance) == equity && FundAfter(balance, s) - balance <= fee) &&
      (equity <= 0 && equity < fee ==> ToUser(s) == 0 && FundAfter(balance, s) >= 0 &&
                                       balance - FundAfter(balance, s) <= -equity + fee)
  {
    var s := SplitEquity(equity, fee);
    if equity <= 0 && equity < fee {
      assert s.draw == -equity + fee;
    }
  }

  /** The margin ratio of a position at the mark price. */
  function MarginRatioAt(pos: Position, mark: real): real
    requires mark != 0.0 && pos.entryPriceUsd != 0.0
  {
    CalcMarginRatio(pos.collateralMsats, CalcUnrealizedPnlMsats(pos.side, pos.sizeSats, pos.entryPriceUsd, mark),
                    pos.sizeSats, mark)
  }

  /** What `check_and_liquidate_position` returns: False without a mark
      price; ZeroDivisionError from the PnL formula for a zero entry price;
      otherwise whether the margin ratio is strictly below maintenance. */
  function CheckOutcome(pos: Position, mark: Option<real>, cfg: Config): Result<bool>
  {
    if !Truthy(mark) then Ok(false)
    else if pos.entryPriceUsd == 0.0 then Raised("ZeroDivisionError")
    else Ok(MarginRatioAt(pos, mark.value) < cfg.maintenanceMarginPct)
  }

  /** A position of no size has no notional, so its margin ratio reads as 0
      and it is always liquidated once a mark price is known. */
  lemma EmptyPositionLiquidated(pos: Position, mark: real, cfg: Config)
    requires ValidConfig(cfg) && mark != 0.0 && pos.entryPriceUsd != 0.0 && pos.sizeSats <= 0
    ensures CheckOutcome(pos, Some(mark), cfg) == Ok(true)
  {
  }

  /** The trigger is strict: a ratio exactly at the maintenance margin is
      not liquidated. */
  lemma AtMaintenanceNotLiquidated(pos: Position, mark: real, cfg: Config)
    requires mark != 0.0 && pos.entryPriceUsd != 0.0
    requires MarginRatioAt(pos, mark) == cfg.maintenanceMarginPct
    ensures CheckOutcome(pos, Some(mark), cfg) == Ok(false)
  {
  }

  /** The insurance fund's side of the split. */
  function FundSettled(t: Tables, s: Split, now: int): Tables
  {
    t.(insuranceFundMsats := FundAfter(t.insuranceFundMsats, s), insuranceFundUpdatedAt := now)
  }

  function PositionClosed(t: Tables, id: nat): Tables
  {
    t.(positions := RemovePositionRows(t.positions, id))
  }

  /** A positive settlement credited to the user; nothing otherwise. */
  function UserPaid(t: Tables, pubkey: string, amount: int, now: int): Tables
  {
    if amount > 0 then t.(accounts := Credited(t.accounts, pubkey, amount, now)) else t
  }

  /** The tables after liquidating `pos`: the fund takes its share, the
      position row is deleted and a positive settlement is credited. */
  function Liquidated(t: Tables, pos: Position, mark: real, now: int): Tables
    requires mark != 0.0 && pos.entryPriceUsd != 0.0
  {
    var pnl := CalcUnrealizedPnlMsats(pos.side, pos.sizeSats, pos.entryPriceUsd, mark);
    var s := SplitEquity(pos.collateralMsats + pnl, LiquidationFee(pos.sizeSats, mark));
    UserPaid(PositionClosed(FundSettled(t, s, now), pos.id), pos.pubkey, ToUser(s), now)
  }

  /** The tables after checking `pos`: changed only if it was liquidated. */
  function AfterCheck(t: Tables, pos: Position, mark: Option<real>, cfg: Config, now: int): Tables
  {
    if CheckOutcome(pos, mark, cfg) == Ok(true) then Liquidated(t, pos, mark.value, now) else t
  }

  /** Liquidation always deletes the position, pays the user only a
      positive settlement, and moves no other account. */
  lemma {:induction false} LiquidatedEffect(t: Tables, pos: Position, mark: real, now: int)
    requires mark != 0.0 && pos.entryPriceUsd != 0.0
    ensures var r := Liquidated(t, pos, mark, now);
      && (forall p :: p in r.positions <==> p in t.positions && p.id != pos.id)
      && Collateral(r.accounts, pos.pubkey) >= Collateral(t.accounts, pos.pubkey)
      && SameExcept(t.accounts, r.accounts, pos.pubkey)
      && r.orders == t.orders && r.trades == t.trades && r.fundingRates == t.fundingRates && r.nextId == t.nextId
  {
    var pnl := CalcUnrealizedPnlMsats(pos.side, pos.sizeSats, pos.entryPriceUsd, mark);
    var s := SplitEquity(pos.collateralMsats + pnl, LiquidationFee(pos.sizeSats, mark));
    assert ToUser(s) >= 0;
  }

  /** `check_and_liquidate_position`. */
  method CheckAndLiquidatePosition(l: Ledger, pos: Position, mark: Option<real>, cfg: Config, now: int)
    returns (r: Result<bool>)
    requires l.Valid()
    modifies l
    ensures l.Valid()
    ensures r == CheckOutcome(pos, mark, cfg)
    ensures l.State() == AfterCheck(old(l.State()), pos, mark, cfg, now)
  {
    if !Truthy(mark) {
      return Ok(false);
    }
    var m := mark.value;
    if pos.entryPriceUsd == 0.0 {
      return Raised("ZeroDivisionError");
    }
    var pnl := CalcUnrealizedPnlMsats(pos.side, pos.sizeSats, pos.entryPriceUsd, m);
    var mr := CalcMarginRatio(pos.collateralMsats, pnl, pos.sizeSats, m);
    if mr >= cfg.maintenanceMarginPct {
      return Ok(false);
    }
    Liquidate(l, pos, m, now);
    r := Ok(true);
  }

  /** The liquidation itself: the insurance fund takes the fee (or what
      equity there is, or covers the bad debt), the position is closed, and
      a positive settlement is credited to the user. */
  method Liquidate(l: Ledger, pos: Position, mark: real, now: int)
    requires l.Valid() && mark != 0.0 && pos.entryPriceUsd != 0.0
    modifies l
    ensures l.Valid()
    ensures l.State() == Liquidated(old(l.State()), pos, mark, now)
  {
    var pnl := CalcUnrealizedPnlMsats(pos.side, pos.sizeSats, pos.entryPriceUsd, mark);
    var settlementToUser := SettleWithFund(l, pos.collateralMsats + pnl, LiquidationFee(pos.sizeSats, mark), now);
    ClosePositionRow(l, pos.id);
    PaySettlement(l, pos.pubkey, settlementToUser, now);
  }

  /** The insurance fund's side of a liquidation; returns what is left for
      the user. */
  method SettleWithFund(l: Ledger, equity: int, liqFee: int, now: int) returns (settlementToUser: int)
    requires l.Valid()
    modifies l
    ensures l.Valid()
    ensures settlementToUser == ToUser(SplitEquity(equity, liqFee))
    ensures l.State() == FundSettled(old(l.State()), SplitEquity(equity, liqFee), now)
  {
    if equity >= liqFee {
      settlementToUser := equity - liqFee;
      var _ := l.CreditInsuranceFund(liqFee, now);
    } else if equity > 0 {
      var _ := l.CreditInsuranceFund(equity, now);
      settlementToUser := 0;
    } else {
      var badDebt := Abs(equity) + liqFee;
      var _ := l.DebitInsuranceFund(badDebt, now);
      settlementToUser := 0;
    }
  }

  method ClosePositionRow(l: Ledger, id: nat)
    requires l.Valid()
    modifies l
    ensures l.Valid()
    ensures l.State() == PositionClosed(old(l.State()), id)
  {
    var _ := l.ClosePosition(id);
  }

  method PaySettlement(l: Ledger, pubkey: string, amount: int, now: int)
    requires l.Valid()
    modifies l
    ensures l.Valid()
    ensures l.State() == UserPaid(old(l.State()), pubkey, amount, now)
  {
    if amount > 0 {
      var _ := l.CreditCollateral(pubkey, amount, now);
    }
  }

  /** The tables after checking each position of `ps` in turn. */
  function ScanTables(t: Tables, ps: seq<Position>, mark: Option<real>, cfg: Config, now: int): Tables
  {
    if ps == [] then t
    else AfterCheck(ScanTables(t, ps[..|ps| - 1], mark, cfg, now), ps[|ps| - 1], mark, cfg, now)
  }

  /** How many of `ps` the checks liquidate. */
  function CountLiquidated(ps: seq<Position>, mark: Option<real>, cfg: Config): nat
  {
    if ps == [] then 0
    else CountLiquidated(ps[..|ps| - 1], mark, cfg) + (if CheckOutcome(ps[|ps| - 1], mark, cfg) == Ok(true) then 1 else 0)
  }

  /** `run_liquidation_scan` over the one listed market: a check that raises
      is skipped, and only successful liquidations are counted. */
  method RunLiquidationScan(l: Ledger, mark: Option<real>, cfg: Config, now: int) returns (totalLiquidated: nat)
    requires l.Valid()
    modifies l
    ensures l.Valid()
    ensures var snapshot := PositionsInMarket(old(l.positions), BtcUsdPerp);
      totalLiquidated == CountLiquidated(snapshot, mark, cfg) &&
      l.State() == ScanTables(old(l.State()), snapshot, mark, cfg, now)
  {
    ghost var start := l.State();
    var snapshot := PositionsInMarket(l.positions, BtcUsdPerp);
    totalLiquidated := 0;
    var k := 0;
    while k < |snapshot|
      invariant 0 <= k <= |snapshot|
      invariant l.Valid()
      invariant l.State() == ScanTables(start, snapshot[..k], mark, cfg, now)
      invariant totalLiquidated == CountLiquidated(snapshot[..k], mark, cfg)
    {
      totalLiquidated := ScanOne(l, snapshot, k, totalLiquidated, start, mark, cfg, now);
      k := k + 1;
    }
    assert snapshot[..k] == snapshot;
  }

  /** One pass of the scan loop: check the `k`-th position of the snapshot
      and count it if it was liquidated. */
  method ScanOne(l: Ledger, snapshot: seq<Position>, k: int, total: nat, ghost start: Tables,
                 mark: Option<real>, cfg: Config, now: int) returns (total': nat)
    requires 0 <= k < |snapshot| && l.Valid()
    requires l.State() == ScanTables(start, snapshot[..k], mark, cfg, now)
    requires total == CountLiquidated(snapshot[..k], mark, cfg)
    modifies l
    ensures l.Valid()
    ensures l.State() == ScanTables(start, snapshot[..k + 1], mark, cfg, now)
    ensures total' == CountLiquidated(snapshot[..k + 1], mark, cfg)
  {
    ScanStep(start, snapshot, k, mark, cfg, now);
    var r := CheckAndLiquidatePosition(l, snapshot[k], mark, cfg, now);
    total' := if r == Ok(true) then total + 1 else total;
  }

  /** One more position of the snapshot: one more check. */
  lemma ScanStep(t: Tables, ps: seq<Position>, k: int, mark: Option<real>, cfg: Config, now: int)
    requires 0 <= k < |ps|
    ensures ScanTables(t, ps[..k + 1], mark, cfg, now) == AfterCheck(ScanTables(t, ps[..k], mark, cfg, now), ps[k], mark, cfg, now)
    ensures CountLiquidated(ps[..k + 1], mark, cfg) ==
      CountLiquidated(ps[..k], mark, cfg) + (if CheckOutcome(ps[k], mark, cfg) == Ok(true) then 1 else 0)
  {
    assert ps[..k + 1][..k] == ps[..k];
  }

  /** A scan deletes exactly the rows whose id belongs to a liquidated
      position of the snapshot; every other row stays. */
  lemma {:induction false} ScanPositions(t: Tables, ps: seq<Position>, mark: Option<real>, cfg: Config, now: int)
    ensures forall p :: p in ScanTables(t, ps, mark, cfg, now).positions <==>
      p in t.positions && forall q :: q in ps && CheckOutcome(q, mark, cfg) == Ok(true) ==> q.id != p.id
  {
    if ps != [] {
      var init := ps[..|ps| - 1];
      var last := ps[|ps| - 1];
      assert ps == init + [last];
      ScanPositions(t, init, mark, cfg, now);
      if CheckOutcome(last, mark, cfg) == Ok(true) {
        LiquidatedEffect(ScanTables(t, init, mark, cfg, now), last, mark.value, now);
      }
    }
  }

  /** After a scan no position of the scanned market that the check would
      liquidate is left on the books. */
  lemma ScanLeavesNoLiquidatable(t: Tables, mark: Option<real>, cfg: Config, now: int)
    ensures var snapshot := PositionsInMarket(t.positions, BtcUsdPerp);
      forall p :: p in ScanTables(t, snapshot, mark, cfg, now).positions ==>
        p in t.positions && (p.market == BtcUsdPerp ==> CheckOutcome(p, mark, cfg) != Ok(true))
  {
    var snapshot := PositionsInMarket(t.positions, BtcUsdPerp);
    ScanPositions(t, snapshot, mark, cfg, now);
  }
}
