/** The pure margin and PnL formulas of the futures engine
    (futures_engine.py:44-140, 461-465), on exact reals. */
module Margin {
  import opened Common

  datatype Side = Long | Short

  function Opposite(s: Side): Side
  {
    if s == Long then Short else Long
  }

  /** The configuration constants the engine reads. The repository's
      config.py does not define them, so they are a parameter; `ValidConfig`
      states the assumptions the model makes about them. */
  datatype Config = Config(
    maxLeverage: int,
    initialMarginPct: real,
    maintenanceMarginPct: real,
    makerFeePct: real,
    takerFeePct: real,
    insuranceFundFeePct: real,
    fundingIntervalHours: int)

  predicate ValidConfig(cfg: Config)
  {
    && cfg.maxLeverage >= 1
    && 0.0 < cfg.maintenanceMarginPct < 1.0
    && cfg.makerFeePct >= 0.0
    && cfg.takerFeePct >= 0.0
    && 0.0 <= cfg.insuranceFundFeePct <= 1.0
    && cfg.fundingIntervalHours >= 1
  }

  /** The one market the engine lists. */
  const BtcUsdPerp: string := "BTC-USD-PERP"

  predicate KnownMarket(market: string)
  {
    market == BtcUsdPerp
  }

  const SatsPerBtc: real := 100000000.0
  const MsatsPerBtc: real := 100000000000.0

  function SatsToUsd(sats: int, priceUsd: real): real
  {
    (sats as real / SatsPerBtc) * priceUsd
  }

  /** `int((usd / price) * 1e11)`; Python raises on a zero price. */
  function UsdToMsats(usd: real, priceUsd: real): int
    requires priceUsd != 0.0
  {
    Trunc((usd / priceUsd) * MsatsPerBtc)
  }

  function SatsToMsats(sats: int): int
  {
    sats * 1000
  }

  /** Notional value of a size in msats, as every caller computes it: a
      conversion to USD and back at the same price. In exact arithmetic the
      price cancels (the model's idealisation of the float round trip). */
  function NotionalMsats(sizeSats: int, priceUsd: real): (r: int)
    requires priceUsd != 0.0
    ensures r == SatsToMsats(sizeSats)
  {
    var usd := SatsToUsd(sizeSats, priceUsd);
    assert usd / priceUsd == sizeSats as real / SatsPerBtc;
    UsdToMsats(usd, priceUsd)
  }

  /** `maintenance_margin_pct or config.MAINTENANCE_MARGIN_PCT`: an absent or
      zero argument falls back to the configured value. */
  function EffectiveMaintenance(mmArg: real, cfg: Config): real
  {
    if mmArg != 0.0 then mmArg else cfg.maintenanceMarginPct
  }

  function CalcLiquidationPrice(side: Side, entryPriceUsd: real, leverage: int, mmArg: real, cfg: Config): real
    requires leverage != 0
  {
    var mm := EffectiveMaintenance(mmArg, cfg);
    if side == Long then entryPriceUsd * (1.0 - 1.0 / leverage as real + mm)
    else entryPriceUsd * (1.0 + 1.0 / leverage as real - mm)
  }

  /** The fraction of the position's value gained at `mark`, before `int()`. */
  function PnlFraction(side: Side, entryPriceUsd: real, markPriceUsd: real): real
    requires entryPriceUsd != 0.0
  {
    if side == Long then (markPriceUsd - entryPriceUsd) / entryPriceUsd
    else (entryPriceUsd - markPriceUsd) / entryPriceUsd
  }

  function PnlReal(side: Side, sizeSats: int, entryPriceUsd: real, markPriceUsd: real): real
    requires entryPriceUsd != 0.0
  {
    PnlFraction(side, entryPriceUsd, markPriceUsd) * SatsToMsats(sizeSats) as real
  }

  /** Unrealised PnL in msats: the exact PnL truncated toward zero, so it
      differs from the exact value by less than one msat and has its sign. */
  function CalcUnrealizedPnlMsats(side: Side, sizeSats: int, entryPriceUsd: real, markPriceUsd: real): (r: int)
    requires entryPriceUsd != 0.0
    ensures var x := PnlReal(side, sizeSats, entryPriceUsd, markPriceUsd);
      (x >= 0.0 ==> 0 <= r && r as real <= x < r as real + 1.0) &&
      (x < 0.0 ==> r <= 0 && r as real - 1.0 < x <= r as real)
  {
    Trunc(PnlReal(side, sizeSats, entryPriceUsd, markPriceUsd))
  }

  lemma TruncNegate(x: real)
    ensures Trunc(-x) == -Trunc(x)
  {
    if x > 0.0 {
      assert -x < 0.0;
    } else if x < 0.0 {
      assert -x > 0.0;
    }
  }

  /** A long and a short of the same size and entry gain exactly opposite
      amounts: the two counterparties of a fill are zero-sum at any mark. */
  lemma PnlOppositeSides(sizeSats: int, entryPriceUsd: real, markPriceUsd: real)
    requires entryPriceUsd != 0.0
    ensures CalcUnrealizedPnlMsats(Long, sizeSats, entryPriceUsd, markPriceUsd)
         == -CalcUnrealizedPnlMsats(Short, sizeSats, entryPriceUsd, markPriceUsd)
  {
    var l := PnlReal(Long, sizeSats, entryPriceUsd, markPriceUsd);
    var s := PnlReal(Short, sizeSats, entryPriceUsd, markPriceUsd);
    assert PnlFraction(Long, entryPriceUsd, markPriceUsd) == -PnlFraction(Short, entryPriceUsd, markPriceUsd);
    assert l == -s;
    TruncNegate(s);
  }

  /** A position gains exactly when the mark moved in its favour. */
  lemma PnlSign(side: Side, sizeSats: int, entryPriceUsd: real, markPriceUsd: real)
    requires entryPriceUsd > 0.0 && sizeSats > 0
    ensures var r := CalcUnrealizedPnlMsats(side, sizeSats, entryPriceUsd, markPriceUsd);
      (side == Long && markPriceUsd >= entryPriceUsd ==> r >= 0) &&
      (side == Long && markPriceUsd <= entryPriceUsd ==> r <= 0) &&
      (side == Short && markPriceUsd <= entryPriceUsd ==> r >= 0) &&
      (side == Short && markPriceUsd >= entryPriceUsd ==> r <= 0)
  {
    var f := PnlFraction(side, entryPriceUsd, markPriceUsd);
    var n := SatsToMsats(sizeSats) as real;
    assert n > 0.0;
    if side == Long {
      if markPriceUsd >= entryPriceUsd { assert f >= 0.0; assert f * n >= 0.0; }
      if markPriceUsd <= entryPriceUsd { assert f <= 0.0; assert f * n <= 0.0; }
    } else {
      if markPriceUsd <= entryPriceUsd { assert f >= 0.0; assert f * n >= 0.0; }
      if markPriceUsd >= entryPriceUsd { assert f <= 0.0; assert f * n <= 0.0; }
    }
  }

  /** margin_ratio = (collateral + pnl) / notional, and 0 for an empty position. */
  function CalcMarginRatio(collateralMsats: int, unrealizedPnlMsats: int, sizeSats: int, markPriceUsd: real): (r: real)
    requires markPriceUsd != 0.0
    ensures sizeSats <= 0 ==> r == 0.0
    ensures sizeSats > 0 ==> r * SatsToMsats(sizeSats) as real == (collateralMsats + unrealizedPnlMsats) as real
  {
    var notional := NotionalMsats(sizeSats, markPriceUsd);
    if notional <= 0 then 0.0
    else (collateralMsats + unrealizedPnlMsats) as real / notional as real
  }

  /** The margin ratio with the exact (untruncated) PnL and an exact
      collateral: what the liquidation-price formula is derived from. */
  function IdealMarginRatio(side: Side, sizeSats: int, entryPriceUsd: real, markPriceUsd: real, collateral: real): real
    requires entryPriceUsd != 0.0 && sizeSats > 0
  {
    (collateral + PnlReal(side, sizeSats, entryPriceUsd, markPriceUsd)) / SatsToMsats(sizeSats) as real
  }

  /** For a position funded with exactly notional/leverage, the idealised
      margin ratio at the liquidation price is the maintenance margin. */
  lemma LiquidationPriceIsThreshold(side: Side, sizeSats: int, entryPriceUsd: real, leverage: int, mmArg: real, cfg: Config)
    requires entryPriceUsd > 0.0 && sizeSats > 0 && leverage >= 1
    ensures var liq := CalcLiquidationPrice(side, entryPriceUsd, leverage, mmArg, cfg);
      var n := SatsToMsats(sizeSats) as real;
      IdealMarginRatio(side, sizeSats, entryPriceUsd, liq, n / leverage as real) == EffectiveMaintenance(mmArg, cfg)
  {
    var liq := CalcLiquidationPrice(side, entryPriceUsd, leverage, mmArg, cfg);
    var mm := EffectiveMaintenance(mmArg, cfg);
    var n := SatsToMsats(sizeSats) as real;
    var inv := 1.0 / leverage as real;
    assert n / leverage as real == inv * n;
    var f := PnlFraction(side, entryPriceUsd, liq);
    if side == Long {
      assert f == (entryPriceUsd * (1.0 - inv + mm) - entryPriceUsd) / entryPriceUsd;
      assert f == mm - inv;
    } else {
      assert f == (entryPriceUsd - entryPriceUsd * (1.0 + inv - mm)) / entryPriceUsd;
      assert f == mm - inv;
    }
    assert inv * n + f * n == mm * n;
  }

  /** Beyond the liquidation price (below it for a long, above it for a
      short) the idealised margin ratio is under the maintenance margin. */
  lemma BeyondLiquidationPrice(side: Side, sizeSats: int, entryPriceUsd: real, leverage: int, mmArg: real, cfg: Config, mark: real)
    requires entryPriceUsd > 0.0 && sizeSats > 0 && leverage >= 1
    requires var liq := CalcLiquidationPrice(side, entryPriceUsd, leverage, mmArg, cfg);
      if side == Long then mark < liq else mark > liq
    ensures var n := SatsToMsats(sizeSats) as real;
      IdealMarginRatio(side, sizeSats, entryPriceUsd, mark, n / leverage as real) < EffectiveMaintenance(mmArg, cfg)
  {
    var liq := CalcLiquidationPrice(side, entryPriceUsd, leverage, mmArg, cfg);
    var c := SatsToMsats(sizeSats) as real / leverage as real;
    LiquidationPriceIsThreshold(side, sizeSats, entryPriceUsd, leverage, mmArg, cfg);
    IdealRatioMonotone(side, sizeSats, entryPriceUsd, c, mark, liq);
  }

  /** The idealised margin ratio falls as the mark moves against the position. */
  lemma IdealRatioMonotone(side: Side, sizeSats: int, entryPriceUsd: real, collateral: real, worse: real, better: real)
    requires entryPriceUsd > 0.0 && sizeSats > 0
    requires if side == Long then worse < better else worse > better
    ensures IdealMarginRatio(side, sizeSats, entryPriceUsd, worse, collateral)
          < IdealMarginRatio(side, sizeSats, entryPriceUsd, better, collateral)
  {
    var n := SatsToMsats(sizeSats) as real;
    var fw := PnlFraction(side, entryPriceUsd, worse);
    var fb := PnlFraction(side, entryPriceUsd, better);
    FractionMonotone(side, entryPriceUsd, worse, better);
    MulMonotone(fw, fb, n);
    DivMonotone(collateral + fw * n, collateral + fb * n, n);
  }

  lemma FractionMonotone(side: Side, entryPriceUsd: real, worse: real, better: real)
    requires entryPriceUsd > 0.0
    requires if side == Long then worse < better else worse > better
    ensures PnlFraction(side, entryPriceUsd, worse) < PnlFraction(side, entryPriceUsd, better)
  {
    if side == Long {
      DivMonotone(worse - entryPriceUsd, better - entryPriceUsd, entryPriceUsd);
    } else {
      DivMonotone(entryPriceUsd - worse, entryPriceUsd - better, entryPriceUsd);
    }
  }

  lemma MulMonotone(x: real, y: real, n: real)
    requires x < y && n > 0.0
    ensures x * n < y * n
  {
  }

  lemma DivMonotone(x: real, y: real, n: real)
    requires x < y && n > 0.0
    ensures x / n < y / n
  {
  }

  /** `fee_pct or config.TAKER_FEE_PCT`: a zero fee falls back to the taker fee. */
  function EffectiveFee(feePct: real, cfg: Config): real
  {
    if feePct != 0.0 then feePct else cfg.takerFeePct
  }

  /** Collateral an order must reserve: initial margin (notional div leverage)
      plus a fee buffer `int(notional * fee)`. */
  function RequiredCollateralMsats(sizeSats: int, leverage: int, priceUsd: real, feePct: real, cfg: Config): (r: int)
    requires leverage >= 1 && priceUsd != 0.0
    ensures sizeSats >= 0 && EffectiveFee(feePct, cfg) >= 0.0 ==>
      (SatsToMsats(sizeSats) / leverage) <= r && 0 <= r
    ensures EffectiveFee(feePct, cfg) == 0.0 ==> r == SatsToMsats(sizeSats) / leverage
  {
    var fp := EffectiveFee(feePct, cfg);
    var notional := NotionalMsats(sizeSats, priceUsd);
    var margin := notional / leverage;
    var fee := Trunc(notional as real * fp);
    margin + fee
  }

  /** The reservation does not depend on the price it is computed at: the
      amount cancel refunds equals the amount placement debited, whatever
      the reference price was on either occasion. */
  lemma RequiredCollateralPriceFree(sizeSats: int, leverage: int, p1: real, p2: real, feePct: real, cfg: Config)
    requires leverage >= 1 && p1 != 0.0 && p2 != 0.0
    ensures RequiredCollateralMsats(sizeSats, leverage, p1, feePct, cfg)
         == RequiredCollateralMsats(sizeSats, leverage, p2, feePct, cfg)
  {
  }

  /** Seconds until the next funding boundary (a multiple of the interval). */
  function NextFundingSeconds(now: int, fundingIntervalHours: int): (r: int)
    requires fundingIntervalHours >= 1
    ensures 0 < r <= fundingIntervalHours * 3600
    ensures (now + r) % (fundingIntervalHours * 3600) == 0
  {
    var interval := fundingIntervalHours * 3600;
    var nextTs := (now / interval + 1) * interval;
    NextBoundary(now, interval);
    nextTs - now
  }

  lemma NextBoundary(now: int, interval: int)
    requires interval > 0
    ensures var nextTs := (now / interval + 1) * interval;
      0 < nextTs - now <= interval && nextTs % interval == 0
  {
    var q := now / interval;
    assert now == q * interval + now % interval;
    assert (q + 1) * interval == q * interval + interval;
    assert ((q + 1) * interval) % interval == 0 by {
      MultipleMod(q + 1, interval);
    }
  }
}

