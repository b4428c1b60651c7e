# A verified model of the bank's money path

This project is a Dafny model of the money-handling core of a small Bitcoin "bank" service. The service keeps Lightning balances per Nostr public key and runs a perpetual-futures exchange on top of them. The model covers:

- **Futures exchange** (`futures_engine.py`, `futures_ledger.py`):
  - order placement behind a collateral reservation;
  - price-time matching of a taker against the resting limit orders, where every fill opens one position per counterparty;
  - cancellation with a refund;
  - closing a position at the mark price, with insurance-fund settlement;
  - the margin and PnL formulas;
  - the SQLite tables the engine writes: collateral accounts, orders, positions, trades, funding records and the insurance fund;
  - the read projections: the open-order book, open interest and OHLCV candles.
- **Funding** (`funding_rate.py`): the clamped premium rate and the sweep that charges one side of the book and pays the other.
- **Liquidation** (`liquidation_engine.py`): the strict margin-ratio trigger, the three-way split of equity between the user and the insurance fund, and the scan over open positions.
- **Bank ledger** (`ledger.py`): spendable and savings balances per pubkey, deposits, withdrawals, internal transfers, savings moves, yield credits and the transaction log.
- **Yield distribution** (`yield_distribution.py`): pro-rata floor division, with the remainder going to the first largest saver.
- **Nostr helpers** (`nostr_utils.py`):
  - zap-request validation (NIP-57 Appendix D);
  - zap-receipt tag construction (NIP-57 Appendix E);
  - the per-user balance event (kind 30078);
  - the signed-challenge check.

How the source's state and behaviour appear in the model:

- **Databases.** Each SQLite database is one object: `FuturesLedger.Ledger` and `BankLedger.Bank`.
  - Tables are `seq`s in row order, or `map`s keyed by pubkey.
  - Each object's state is summarised by a `State()` datatype.
  - Every method is proved against a pure function of the old state (`State() == Deposited(old(State()), ...)`).
  - The lemmas about those functions carry the properties: conservation, refusal conditions and "nothing else changes".
- **Loops stay loops.** The source's loops are `while` loops with invariants:
  - the matching loop of `_match_order`;
  - the funding sweep;
  - the liquidation scan;
  - the share and credit loops of `distribute_yield`;
  - the tag-copying loop of the zap receipt.
- **Numbers.**
  - USD prices are exact `real`s.
  - Python's `int()` is truncation toward zero (`Common.Trunc`).
  - Python's `//` is floor division (`YieldDistribution.FloorDiv`).
  - SQLite's integer `/` truncates (`Ohlcv.Quotient`).
- **Parameters.** The oracle's prices, the clock and the signature check are parameters.
- **Ids.**
  - Row ids drawn from `uuid4` are serial numbers handed out by the ledger.
  - Transfer rows keep the caller's transfer id with the `-debit` and `-credit` suffixes.

## Model

| member | source | states |
|---|---|---|
| Common.Trunc | futures_engine.py:73-84 | Python's `int()` on a float: the result is within one unit of `x`, toward zero, and has `x`'s sign |
| Margin.NotionalMsats | futures_engine.py:44-53 | the notional of a size, converted to USD and back at any non-zero price, is `sizeSats * 1000` msats (the exact-arithmetic idealisation of the float round trip) |
| Margin.CalcUnrealizedPnlMsats | futures_engine.py:73-84 | the PnL in msats differs from the exact PnL by less than one msat, toward zero, and has its sign |
| Margin.PnlOppositeSides | futures_engine.py:73-84 | a long and a short of the same size and entry have exactly opposite PnL at every mark price |
| Margin.PnlSign | futures_engine.py:73-84 | a position gains when the mark moved in its favour and loses when it moved against it |
| Margin.CalcMarginRatio | futures_engine.py:87-101 | the ratio is 0 for an empty position; otherwise ratio × notional = collateral + PnL |
| Margin.LiquidationPriceIsThreshold | futures_engine.py:56-70 | the property of `Margin.CalcLiquidationPrice`: for a position funded with notional/leverage, the margin ratio at `calc_liquidation_price` is exactly the maintenance margin, absent or zero argument falling back to the configured one |
| Margin.BeyondLiquidationPrice | futures_engine.py:56-70 | below the liquidation price (long) or above it (short), the margin ratio is under the maintenance margin |
| Margin.IdealRatioMonotone | futures_engine.py:87-101 | the margin ratio strictly falls as the mark moves against the position |
| Margin.FractionMonotone | futures_engine.py:73-84 | the PnL fraction strictly falls as the mark moves against the position |
| Margin.RequiredCollateralMsats | futures_engine.py:126-140 | the reservation is at least the initial margin (notional div leverage) and non-negative, and equals the initial margin when the effective fee is 0 |
| Margin.RequiredCollateralPriceFree | futures_engine.py:126-140 | the reservation does not depend on the price it is computed at |
| Margin.NextFundingSeconds | futures_engine.py:461-465 | the wait is positive and at most one interval, and ends on a multiple of the interval |
| Margin.NextBoundary | futures_engine.py:461-465 | the next boundary after `now` is a multiple of the interval, strictly after `now`, at most one interval away |
| FuturesRecords.PositionsInMarket | futures_ledger.py:332-338 | exactly the rows of the market, with unique ids kept unique (the query has no ORDER BY; see "## Left out") |
| OrderBook.SortOrders | futures_engine.py:252-268 | the re-sort yields a sorted permutation of the orders |
| OrderBook.Insert | futures_engine.py:252-268 | inserting into a sorted book keeps it sorted and adds exactly that order |
| OrderBook.FilterBook | futures_ledger.py:242-254 | keeps exactly the open orders of the market (and side, if given) |
| OrderBook.OpenOrdersForMarket | futures_ledger.py:242-254 | exactly the market's open orders (of the given side), ordered by price, then creation time; each row at most as often as the table holds it, so distinct ids stay distinct |
| OrderBook.FilterLimit | futures_engine.py:259-268 | keeps exactly the limit orders, each at most as often as its input holds it |
| OrderBook.RestingMakers | futures_engine.py:252-268 | exactly the opposite side's open limit orders of the market, sorted best price first, each row at most as often as the table holds it, so distinct ids stay distinct; a well-formed book gives priced makers |
| OrderBook.LongTakerPriority | futures_engine.py:257-262 | for a long taker, a cheaper ask always comes first and, at one price, the earlier ask comes first |
| OrderBook.ShortTakerPriority | futures_engine.py:263-268 | for a short taker, a richer bid always comes first and, at one price, the earlier bid comes first |
| OrderBook.KeyLeTotal | futures_engine.py:252-268 | any two orders are comparable under the priority key |
| OrderBook.KeyLeTransitive | futures_engine.py:252-268 | the priority key is transitive |
| FuturesLedger.EnsureAccount | futures_ledger.py:142-153 | afterwards the account exists; an existing one is unchanged, a new one starts with 0 collateral; no other account changes |
| FuturesLedger.EnsureAccountIdempotent | futures_ledger.py:142-153 | creating an account twice is the same as creating it once |
| FuturesLedger.Credited | futures_ledger.py:163-172 | the account exists afterwards and holds exactly `amount` more than it read before; no other account changes |
| FuturesLedger.Debited | futures_ledger.py:175-186 | refused exactly for a missing account or a balance below the amount; otherwise exactly the amount is taken, and no other account changes |
| FuturesLedger.Adjusted | futures_ledger.py:189-204 | refused exactly for a missing account or a result below zero; otherwise the balance moves by `delta` and stays non-negative |
| FuturesLedger.CreditThenDebit | futures_ledger.py:163-186 | debiting what was just credited succeeds and restores the balance |
| FuturesLedger.DebitIsNegativeAdjust | futures_ledger.py:175-204 | a debit is the adjustment by the negated amount, in refusal and in effect |
| FuturesLedger.FindOrder | futures_ledger.py:235-239 | a found row is in the table with that id; none found means no row has it |
| FuturesLedger.WithStatus | futures_ledger.py:272-285 | the row gets the new status and time, and the fill count only when given; every other field is unchanged |
| FuturesLedger.UpdateOrderRows | futures_ledger.py:272-285 | every row is either unchanged or is the row with that id rewritten; ids and length are kept |
| FuturesLedger.UpdateOrderRowsFind | futures_ledger.py:272-285 | reading by id after the update: the row with that id (if any) is rewritten, every other id reads as before |
| FuturesLedger.FindPosition | futures_ledger.py:316-320 | a found row is in the table with that id; none found means no row has it |
| FuturesLedger.RemovePositionRows | futures_ledger.py:341-344 | exactly the rows with another id remain; the table shrinks when a row had that id |
| FuturesLedger.WithFunding | futures_ledger.py:347-358 | funding cost moves by the delta, collateral is replaced, nothing else changes |
| FuturesLedger.UpdatePositionRows | futures_ledger.py:347-358 | exactly the rows with that id are rewritten by `WithFunding` |
| FuturesLedger.UpdateAtIndex | futures_ledger.py:347-358 | with unique ids, the update by id rewrites exactly one row |
| FuturesLedger.OpenInterestAppend | futures_ledger.py:361-365 | a new position adds its size to its market's open interest and leaves other markets' unchanged |
| FuturesLedger.FundAfterDebit | futures_ledger.py:506-516 | the fund drops by the amount, or to 0 if the amount is larger, and never goes negative |
| FuturesLedger.Ledger.constructor | futures_ledger.py:37-123 | empty tables and an insurance fund of 0 |
| FuturesLedger.Ledger.GetOrCreateFuturesAccount | futures_ledger.py:142-153 | the account table becomes `EnsureAccount`, and the returned row is the stored one |
| FuturesLedger.Ledger.CreditCollateral | futures_ledger.py:163-172 | the account table becomes `Credited`; returns the old balance plus the amount |
| FuturesLedger.Ledger.DebitCollateral | futures_ledger.py:175-186 | a refusal changes nothing and returns None; otherwise the table becomes `Debited` and the new balance is returned |
| FuturesLedger.Ledger.AdjustCollateral | futures_ledger.py:189-204 | a refusal changes nothing and returns None; otherwise the table becomes `Adjusted` and the new balance is returned |
| FuturesLedger.Ledger.CreateOrder | futures_ledger.py:211-232 | appends one fresh-id row, status open with nothing filled; nothing else changes |
| FuturesLedger.Ledger.UpdateOrderStatus | futures_ledger.py:272-285 | the order table becomes `UpdateOrderRows` and the row read back is returned |
| FuturesLedger.Ledger.CreatePosition | futures_ledger.py:292-313 | appends one fresh-id row with no funding cost; nothing else changes |
| FuturesLedger.Ledger.ClosePosition | futures_ledger.py:341-344 | deletes the rows with that id, and returns true exactly when such a row existed |
| FuturesLedger.Ledger.UpdatePositionFunding | futures_ledger.py:347-358 | the position table becomes `UpdatePositionRows` and the row read back is returned |
| FuturesLedger.Ledger.RecordTrade | futures_ledger.py:372-396 | appends one fresh-id trade to the log; nothing else changes |
| FuturesLedger.Ledger.RecordFundingRate | futures_ledger.py:449-462 | appends one fresh-id funding record; nothing else changes |
| FuturesLedger.Ledger.CreditInsuranceFund | futures_ledger.py:495-503 | the fund grows by the amount; nothing else changes |
| FuturesLedger.Ledger.DebitInsuranceFund | futures_ledger.py:506-516 | the fund becomes `FundAfterDebit` (floored at 0); nothing else changes |
| FuturesEngine.PlanAdmissible | futures_engine.py:270-302 | the property of `FuturesEngine.PlanFills`, which specifies the matching loop: every fill is against a resting maker, at its price, for a positive size within its remainder, and crosses for a limit taker; together the fills never exceed what the taker has left |
| FuturesEngine.PlanDistinct | futures_engine.py:273-302 | no maker is filled twice |
| FuturesEngine.FillPricesMonotone | futures_engine.py:252-309 | a long taker's fill prices never fall and a short taker's never rise |
| FuturesEngine.NoCrossingLiquidityLeft | futures_engine.py:270-302 | if the taker is left unfilled, no resting maker still offered liquidity it could have taken |
| FuturesEngine.EngineBookPlan | futures_engine.py:252-302 | on the book `_match_order` reads from a well-formed orders table with a primary key, no maker is filled twice and a taker left unfilled leaves no crossing liquidity behind |
| OrderBook.SubMultisetDistinct | futures_ledger.py:242-254 | rows drawn from a table with a primary key, each no more often than the table holds it, have distinct ids |
| FuturesEngine.StopLeavesNoCrossing | futures_engine.py:278-284 | a limit taker that does not cross the best maker crosses none |
| FuturesEngine.FilledHeadUnavailable | futures_engine.py:286-302 | when the best maker is filled, the taker took all of it |
| FuturesEngine.HeadPriceNoWorse | futures_engine.py:252-268 | in a sorted book the first maker's price is no worse for the taker than any other's |
| FuturesEngine.PlanStops | futures_engine.py:278-284 | a limit taker stops at the first maker its price does not cross |
| FuturesEngine.PlanSkips | futures_engine.py:286-290 | a maker with nothing left is passed over |
| FuturesEngine.PlanTakes | futures_engine.py:286-302 | otherwise the maker is filled for the smaller remainder at its own price |
| FuturesEngine.PlanEnds | futures_engine.py:273-275 | no fill once the book or the taker is exhausted |
| FuturesEngine.FillOfAbsent | futures_engine.py:273-302 | a maker that no fill names receives nothing |
| FuturesEngine.TotalFilledAppend | futures_engine.py:300-305 | the total filled grows by each fill's size |
| FuturesEngine.Share | futures_engine.py:335-338 | a fill's share of a reservation lies between 0 and the whole reservation |
| FuturesEngine.FillCollateral | futures_engine.py:333-338 | the collateral behind one side of a fill is never more than what the order reserved |
| FuturesEngine.FillIsZeroSum | futures_engine.py:314-377 | the two positions of a fill are opposite sides of one size at the fill price, so their PnLs cancel at every mark |
| FuturesEngine.FillOpensInterest | futures_engine.py:314-377 | a fill adds twice its size to open interest, moves no collateral or insurance money, and uses three fresh ids |
| FuturesEngine.FillKeepsBook | futures_engine.py:355-360 | a fill only moves the maker out of the open book, so the book stays well formed |
| FuturesEngine.StatusUpdateKeepsBook | futures_ledger.py:272-285 | moving a row out of `open` keeps the book well formed |
| FuturesEngine.ApplyFillsEffect | futures_engine.py:273-302 | any run of fills leaves accounts and the insurance fund untouched, keeps the book well formed, uses three ids per fill and opens twice the filled size in interest |
| FuturesEngine.ApplyFillsAppend | futures_engine.py:292-302 | applying one more fill extends the fold by that fill |
| FuturesEngine.RestingReady | futures_engine.py:252-268 | a well-formed book offers only priced, fillable makers |
| FuturesEngine.ExecuteFill | futures_engine.py:314-377 | the tables become `ApplyFill`: two positions, taker first, then the maker's status, then the trade |
| FuturesEngine.OpenFillPositions | futures_engine.py:331-353 | opens the taker's position, then the maker's |
| FuturesEngine.OpenFillPosition | futures_engine.py:332-349 | appends one position with the fill size, price, share of collateral, leverage and liquidation price |
| FuturesEngine.MarkMaker | futures_engine.py:355-360 | the maker becomes filled exactly when its cumulative fill reaches its size, partially filled otherwise |
| FuturesEngine.RecordFillTrade | futures_engine.py:362-373 | records one trade with the long order as buyer and the short as seller |
| FuturesEngine.MatchOrder | futures_engine.py:241-311 | the fills are the plan against the resting makers of the book as it was; the book stays well formed; the taker is marked filled, partially filled or left open by the total filled |
| FuturesEngine.MatchAgainst | futures_engine.py:270-311 | the matching loop and the taker's final status against a given list of makers |
| FuturesEngine.SweepBook | futures_engine.py:270-302 | the loop makes exactly the planned fills, the taker's remainder is its size minus the total filled, and the tables are the fills applied in order |
| FuturesEngine.TakeMaker | futures_engine.py:286-302 | one pass of the loop executes the next planned fill and advances by one maker |
| FuturesEngine.ExecuteNextFill | futures_engine.py:292-302 | executing one more fill extends the applied fills by it |
| FuturesEngine.ProgressStep | futures_engine.py:286-302 | one fill moves the loop's progress on by one maker |
| FuturesEngine.MarkTaker | futures_engine.py:304-309 | the taker's row is marked filled, partially filled or left unchanged by the total filled |
| FuturesApi.ParseSide | futures_engine.py:163-164 | only `long` and `short` name a side, and each names the side it spells |
| FuturesApi.ParseOrderType | futures_engine.py:165-166 | only `limit` and `market` name a type |
| FuturesApi.RefPrice | futures_engine.py:175-177 | the order's own price when it is usable, else the oracle's; None exactly when neither is usable |
| FuturesApi.RequestError | futures_engine.py:161-173 | the request is accepted exactly for a known market, a valid side and type, a positive size, leverage in `[1, max]` and, for a limit order, a positive price |
| FuturesApi.Admit | futures_engine.py:161-190 | an admitted order's reservation is within the trader's balance; a refusal for collateral reports less than needed |
| FuturesApi.AdmitSound | futures_engine.py:161-190 | an admitted request passed every check, its reference price is its own usable price, and its reservation is `required_collateral_msats`, at least the initial margin |
| FuturesApi.AdmitComplete | futures_engine.py:161-190 | every request that passes the checks and has enough collateral is admitted |
| FuturesApi.OracleNeededOnlyWithoutPrice | futures_engine.py:175-177 | a refusal for want of an oracle price happens only when the order has no usable price either |
| FuturesApi.PlaceOrder | futures_engine.py:147-207 | a refusal changes nothing; otherwise the reservation is debited, the order row written, matching run at the reference price against a book with distinct ids, and the book stays well formed |
| FuturesApi.PlacementMovesOnlyTheReservation | futures_engine.py:179-207 | placement lowers the trader's balance by exactly the reservation (never below zero), moves no other account or the fund, and opens twice the matched size in interest |
| FuturesApi.CancelCheck | futures_engine.py:215-221 | cancellable exactly when the order exists, belongs to the caller and is still open; not found exactly when no row has the id |
| FuturesApi.CancelRefund | futures_engine.py:223-231 | the refund is never negative |
| FuturesApi.CancelOrder | futures_engine.py:210-234 | a refusal changes nothing; otherwise the order is marked cancelled and the refund credited |
| FuturesApi.CancelRefundsReservation | futures_engine.py:179-234 | placing an unmatched order and cancelling it restores the trader's balance exactly, whatever the oracle said at either moment |
| FuturesApi.CancelTwiceRefused | futures_engine.py:215-232 | a cancelled order cannot be cancelled again, so no reservation is refunded twice |
| FuturesApi.FindOrderDistinct | futures_ledger.py:235-239 | with unique ids, looking a row up by its id finds it |
| FuturesApi.SettleClose | futures_engine.py:404-421 | settlement + fee − draw = collateral + PnL; a draw happens exactly on a deficit; a fee only on a gain and at most the gain; the settlement is never negative |
| FuturesApi.CloseCheck | futures_engine.py:391-403 | a close succeeds only with a mark price and an owned position with a non-zero entry; not found exactly when no row has the id |
| FuturesApi.ClosePosition | futures_engine.py:384-430 | a refusal changes nothing; otherwise the fund is settled, the row deleted and a positive settlement credited |
| FuturesApi.SettleFund | futures_engine.py:405-417 | the fund pays a draw, then takes the fee on a settlement above collateral |
| FuturesApi.CloseConservesValue | futures_engine.py:401-421 | when the fund covers any deficit, the trader's balance plus the fund grow by exactly collateral + PnL; no other account moves; the row is gone |
| FuturesApi.CloseAtEntryReturnsCollateral | futures_engine.py:384-430 | closing at the entry price returns the collateral in full, with no fee and no draw |
| FundingRate.ComputeFundingRate | funding_rate.py:25-34 | the rate lies in `[-0.0075, 0.0075]`, and is 0 without a positive index |
| FundingRate.FundingRateInBand | funding_rate.py:25-34 | inside the band the rate is exactly premium × 0.0003 |
| FundingRate.FundingRateSign | funding_rate.py:25-34 | the rate has the sign of mark − index |
| FundingRate.FundingPayment | funding_rate.py:58-59 | the payment is non-negative and at most abs(rate) × notional |
| FundingRate.Funded | funding_rate.py:58-87 | only collateral, funding cost and update time of the position change |
| FundingRate.FundedCollateral | funding_rate.py:64-87 | a payer's collateral never goes negative and falls by at most the payment; a receiver's grows by exactly the payment |
| FundingRate.FundingCostTracksCollateral | funding_rate.py:64-87 | the funding cost records exactly the collateral moved, except where a payer was floored at 0, where it records more |
| FundingRate.FundingSweep | funding_rate.py:55-87 | every position of the market is funded, every other row unchanged |
| FundingRate.FundingNotZeroSum | funding_rate.py:64-87 | a concrete sweep where the counters balance but a payer with no collateral leaves collateral created from nothing |
| FundingRate.ApplyFundingForMarket | funding_rate.py:37-111 | without both oracle prices nothing changes; otherwise the market's positions are swept, exactly one funding record is appended, and the counters report the payments |
| FundingRate.SweepMarket | funding_rate.py:50-87 | the loop funds every position of the market snapshot and sums the debits and credits |
| FundingRate.SweepOne | funding_rate.py:55-87 | one pass charges one more snapshot position and adds its payment to the right counter |
| FundingRate.ChargePosition | funding_rate.py:58-87 | the payer side is debited (floored at 0), the other credited; a zero payment writes nothing |
| FundingRate.ApplyCharge | funding_rate.py:64-87 | the position's funding update for a payer or a receiver |
| FundingRate.CountersStep | funding_rate.py:71-87 | each position adds its payment to exactly one counter |
| FundingRate.SweepStep | funding_rate.py:55-87 | charging the next snapshot position touches exactly its row |
| FundingRate.SweptAll | funding_rate.py:55-87 | after the loop the table is the sweep of the market |
| Liquidation.LiquidationFee | liquidation_engine.py:53-55 | the fee is between 0 and the notional |
| Liquidation.SplitEquity | liquidation_engine.py:57-69 | the user is paid after the fee exactly when the equity covers the fee |
| Liquidation.SplitConservesEquity | liquidation_engine.py:57-69 | positive equity is shared between user and fund, with the fund taking at most the fee; with none, the user gets 0 and the fund pays at most deficit + fee without going below 0 |
| Liquidation.EmptyPositionLiquidated | liquidation_engine.py:38-42 | a position of no size is liquidated whenever a mark price is known |
| Liquidation.AtMaintenanceNotLiquidated | liquidation_engine.py:41-42 | a ratio exactly at the maintenance margin is not liquidated |
| Liquidation.LiquidatedEffect | liquidation_engine.py:52-76 | liquidation deletes the position, never lowers the user's balance, moves no other account, and leaves orders, trades and funding records alone |
| Liquidation.CheckAndLiquidatePosition | liquidation_engine.py:29-90 | returns False without a mark price, raises for a zero entry price, otherwise reports and performs the liquidation exactly when the ratio is below maintenance |
| Liquidation.Liquidate | liquidation_engine.py:52-76 | the fund takes its share, the position is closed and a positive settlement credited |
| Liquidation.SettleWithFund | liquidation_engine.py:57-69 | the fund is credited the fee or the equity, or debited deficit + fee; returns the user's share |
| Liquidation.ClosePositionRow | liquidation_engine.py:72 | deletes the position row |
| Liquidation.PaySettlement | liquidation_engine.py:74-76 | credits only a positive settlement |
| Liquidation.RunLiquidationScan | liquidation_engine.py:93-107 | checks each position of the market snapshot in turn and counts exactly the successful liquidations, skipping ones that raise |
| Liquidation.ScanOne | liquidation_engine.py:99-104 | one pass checks the next position and counts it if it was liquidated |
| Liquidation.ScanStep | liquidation_engine.py:99-104 | one more position means one more check and one more count if it liquidated |
| Liquidation.ScanPositions | liquidation_engine.py:93-107 | the scan deletes exactly the rows of liquidated positions |
| Liquidation.ScanLeavesNoLiquidatable | liquidation_engine.py:93-107 | no position of the market that the check would liquidate is left |
| BankLedger.SaversIn | ledger.py:142-148 | exactly the accounts with positive savings, with their balances, each once |
| BankLedger.SaversHoldAllSavings | ledger.py:134-148 | the savers' balances add up to the savings total |
| BankLedger.DepositEffect | ledger.py:198-237 | the amount is added to spendable (a new account starts from it), no other balance changes, and one row logs the new balance |
| BankLedger.DepositTotals | ledger.py:198-237 | total holdings grow by the amount; the savings total is unchanged |
| BankLedger.WithdrawalEffect | ledger.py:240-276 | refused with no change exactly for a missing account or short balance; otherwise the amount is taken and logged negated |
| BankLedger.TransferOutcome | ledger.py:279-350 | refused for a self-transfer, a non-positive amount, a missing sender or a short balance; raises exactly when the transfer id was already used |
| BankLedger.TransferEffect | ledger.py:279-350 | the sender loses exactly the amount, the recipient (created if missing) gains it, no other account changes |
| BankLedger.TransferConserves | ledger.py:279-350 | total holdings are unchanged; two rows are logged, −amount then +amount |
| BankLedger.MoveConserves | ledger.py:301-326 | debiting one row and crediting another by the same amount keeps the total |
| BankLedger.TransferShape | ledger.py:301-341 | the transfer writes the debit, the credit and the two `-debit`/`-credit` rows |
| BankLedger.SavingsAddEffect | ledger.py:353-389 | refused exactly for a missing account or short spendable; otherwise the amount moves to savings and holdings are unchanged |
| BankLedger.SavingsRemoveEffect | ledger.py:392-428 | refused exactly for a missing account or short savings; otherwise the amount moves back and holdings are unchanged |
| BankLedger.SavingsRoundTrip | ledger.py:353-428 | moving an amount into savings and back restores both balances |
| BankLedger.YieldCreditEffect | ledger.py:161-195 | refused exactly for a missing account; otherwise only savings grow by the amount |
| BankLedger.Bank.constructor | ledger.py:24-74 | empty tables |
| BankLedger.Bank.GetOrCreateAccount | ledger.py:89-111 | an existing account is returned unchanged; a missing one is created with both balances 0 |
| BankLedger.Bank.YieldCredit | ledger.py:161-195 | the state becomes `YieldCredited`, or nothing changes and None is returned |
| BankLedger.Bank.CreditDeposit | ledger.py:198-237 | the state becomes `Deposited`, and the receipt reports the new balances |
| BankLedger.Bank.DebitWithdrawal | ledger.py:240-276 | the state becomes `Withdrawn`, or nothing changes and None is returned |
| BankLedger.Bank.TransferInternal | ledger.py:279-350 | the state becomes `Transferred`; a refusal or a duplicate id changes nothing |
| BankLedger.Bank.MoveFunds | ledger.py:301-341 | the writes of an accepted transfer |
| BankLedger.Bank.AddToSpendable | ledger.py:311-326 | credits spendable, inserting a missing account |
| BankLedger.Bank.SavingsAdd | ledger.py:353-389 | the state becomes `SavingsAdded`, or nothing changes and None is returned |
| BankLedger.Bank.SavingsRemove | ledger.py:392-428 | the state becomes `SavingsRemoved`, or nothing changes and None is returned |
| YieldDistribution.FloorDiv | yield_distribution.py:35 | Python's `//` for either sign of divisor |
| YieldDistribution.Floored | yield_distribution.py:31-37 | each base share is `savings × amount // total` |
| YieldDistribution.FirstMax | yield_distribution.py:40-44 | the first index holding the largest savings |
| YieldDistribution.FlooredSlack | yield_distribution.py:31-37 | the floors fall short of the exact total by less than one msat per saver |
| YieldDistribution.RemainderBelowSaverCount | yield_distribution.py:22-44 | the remainder is non-negative and less than the number of savers |
| YieldDistribution.SharesAddUp | yield_distribution.py:31-44 | the shares sum to exactly the amount |
| YieldDistribution.SharesProRata | yield_distribution.py:31-44 | every saver gets its floored share except the first largest, who gets it plus the remainder; no share is negative |
| YieldDistribution.CreditedEffect | yield_distribution.py:46-63 | crediting touches only savings; the savings total grows by what was credited |
| YieldDistribution.CreditedAll | yield_distribution.py:46-63 | every positive share is credited, once each |
| YieldDistribution.DistributesExactly | yield_distribution.py:14-64 | the whole amount reaches the savers and the savings total, and spendable does not move |
| YieldDistribution.ComputeShares | yield_distribution.py:31-44 | the loop computes exactly the shares |
| YieldDistribution.CreditShares | yield_distribution.py:46-63 | the loop credits each positive share and sums what was credited |
| YieldDistribution.DistributeYield | yield_distribution.py:14-64 | with nothing to distribute nothing changes; otherwise the shares are credited and the count and total reported |
| NostrUtils.FirstNamed | nostr_utils.py:52-58 | the index of the first tag with that name, if any |
| NostrUtils.NoValues | nostr_utils.py:48-53 | no value exactly when no tag has the name |
| NostrUtils.SoleValue | nostr_utils.py:48-50 | a single value exactly when exactly one tag carries the name |
| NostrUtils.FirstValue | nostr_utils.py:52-58 | the first value comes from the first tag with that name |
| NostrUtils.ZapRequestAccepted | nostr_utils.py:37-66 | the property of `NostrUtils.ValidateZapRequest`: accepted exactly for kind 9734, exactly one `p` tag naming the recipient, and a positive integer first `amount`; echoes pubkey, content, tags and time and takes the first `relays` tail |
| NostrUtils.NoAmountRefused | nostr_utils.py:52-55 | no `amount` tag means refusal |
| NostrUtils.ParseDecimal | nostr_utils.py:53 | `int(str(n)) == n` |
| NostrUtils.ReceiptCopiesChosen | nostr_utils.py:87-90 | the copied tags are the request's `p`/`e`/`a` tags with a value; an empty tag raises |
| NostrUtils.ReceiptCopiesAbort | nostr_utils.py:88-89 | an empty tag anywhere makes the copy raise |
| NostrUtils.CreateZapReceipt | nostr_utils.py:74-111 | the unsigned kind 9735 event with the copied tags then `P`, `bolt11`, `description`, `preimage`, or the raise |
| NostrUtils.BalanceEvent | nostr_utils.py:114-155 | kind 30078 with the `d` tag; keeps the last 10 transactions; `savings_msats` when it or the APY is non-zero, `savings_apy` when non-zero |
| NostrUtils.BalanceDTagInjective | nostr_utils.py:139-140 | the `d` tag determines the pubkey |
| NostrUtils.ChallengeAccepted | nostr_utils.py:179-191 | the property of `NostrUtils.VerifySignedChallenge`: accepted exactly for a present event by the expected non-empty pubkey with the non-empty challenge as content and a valid signature; never for two different pubkeys or challenges |
| Ohlcv.Quotient | futures_ledger.py:423-425 | SQLite integer division truncates toward zero |
| Ohlcv.Selected | futures_ledger.py:433-434 | exactly the market's trades since `since` |
| Ohlcv.Group | futures_ledger.py:435 | exactly the trades of one bucket |
| Ohlcv.Quotients | futures_ledger.py:435-436 | distinct bucket keys, ascending, one per bucket holding a trade |
| Ohlcv.Earliest | futures_ledger.py:424-426 | an earliest trade of the group |
| Ohlcv.Latest | futures_ledger.py:429-431 | a latest trade of the group |
| Ohlcv.High | futures_ledger.py:427 | the largest price, which some trade has |
| Ohlcv.Low | futures_ledger.py:428 | the smallest price, which some trade has |
| Ohlcv.OfMarket | futures_ledger.py:424-431 | exactly the market's trades, with no time filter |
| Ohlcv.CandlesAscending | futures_ledger.py:435-436 | candles in strictly ascending bucket order |
| Ohlcv.CandlesCoverSelected | futures_ledger.py:423-435 | every selected trade has a candle for its bucket |
| Ohlcv.CandleSummarisesBucket | futures_ledger.py:422-436 | each candle's volume, high, low, open and close summarise the selected trades of its bucket |
| Ohlcv.AsWrittenCloseInRange | futures_ledger.py:418-442 | as written, candles agree with the corrected ones except the open, and the close is in range |
| Ohlcv.AsWrittenOpenOutOfRange | futures_ledger.py:424-426 | as written, a candle's open can lie below its low |
| Ohlcv.CandlesWellFormed | futures_ledger.py:418-442 | with the fix, `low <= open <= high` and `low <= close <= high` |

## Left out

- I/O is not part of this model:
  - the Flask routes of app.py;
  - relay publishing and the NWC listener;
  - LNbits and Greenlight;
  - GCS storage;
  - the Node subprocess;
  - logging.
  The ledger operations those routes call are modelled.
- The price oracle, the clock and `uuid4` are parameters:
  - oracle prices are `Option<real>` arguments;
  - `now` is an argument;
  - each modelled operation reads the clock once and passes that one `now` to every write it makes. The source reads `time.time()` again in every ledger call (futures_ledger.py:143, 164, 176, 191, 221, 273, 302, 348, 382, 452, 496, 507), so the rows of one operation, such as the positions, statuses and trades of one match, can carry different seconds there;
  - row ids are serials.
- The configuration constants (maximum leverage, margin and fee percentages, funding interval) are a `Config` parameter, because config.py does not define them.
- Floating point is not modelled: prices are exact reals. As a result, `usd_to_msats(sats_to_usd(s, p), p)` is exactly `s * 1000` (`Margin.NotionalMsats`), whereas IEEE rounding can be off by one msat.
- The engine lock and concurrent callers are not modelled; the engine is a single sequential writer.
- Signing and serialisation are not modelled:
  - event ids, Schnorr signatures and JSON serialisation are not computed;
  - `verify_event_signature` is a predicate parameter;
  - receipts and balance events are returned unsigned;
  - the receipt's `description` is a serialiser parameter.
- Read-only getters that only report stored values have no contract of their own; the modelled operations use them as plain functions:
  - `get_balance`, `get_savings`, `get_total_savings`, `get_collateral`, `get_order`, `get_position`;
  - `get_insurance_fund`, `get_total_open_interest_sats`.
- `get_total_yield_distributed_msats` (ledger.py:151-158) and `get_recent_transactions` (ledger.py:450) are not modelled; they are reporting queries with no rule to prove. The NWC and Brahma account helpers of ledger.py (from line 431) belong to the wallet-connect and smart-account integrations, which are not part of this model.
- NostrUtils.ParseInt: accepts only an optional sign and decimal digits. Python's `int()` also accepts surrounding whitespace, underscores between digits and non-ASCII Unicode decimal digits.
- Ohlcv.Candles: requires a bucket width above 0. With a width of 0, SQLite returns NULL buckets, and this is not modelled.
- Ohlcv.CandlesAsWritten: also requires a width above 0, for the same reason.
- FuturesApi.PlaceOrder: returns the order with the matched size but the status at creation, as the source's dictionary does; the stored row carries the final status.
- `_match_order`'s partially filled makers never match again, because the book query returns only open rows. This is modelled as written.
- FuturesRecords.PositionsInMarket: `SELECT * FROM positions WHERE market = ?` (futures_ledger.py:332-338) has no ORDER BY, so SQLite promises no row order. The model returns the rows in table order, and the funding sweep and the liquidation scan visit them in that order; this order is the model's choice.
- Liquidation.RunLiquidationScan: the model takes one mark price for the whole scan. The source asks the oracle once per position (liquidation_engine.py:34), and its 30-second cache (price_oracle.py:19, 51-53) can refresh during a scan. `Liquidation.ScanLeavesNoLiquidatable` therefore holds only at that single mark.
- Liquidation.RunLiquidationScan: returns the number of liquidated positions. The source returns None and only logs that count (liquidation_engine.py:106-107).
- Ohlcv.Earliest and Ohlcv.Latest: when several trades share the earliest (latest) timestamp, the model picks the first (last) in table order. SQLite's `ORDER BY timestamp … LIMIT 1` leaves that choice unspecified, and the fills of one match usually share a timestamp (each `record_trade` reads the clock, futures_ledger.py:382). The contracts hold whichever trade is picked; the tie-break is the model's.

## Findings

| source | as written | input that shows it | evidently intended | confidence | as-written member | corrected member |
|---|---|---|---|---|---|---|
| futures_ledger.py:424-431 | the open and close subqueries of `get_ohlcv` match trades of the bucket without the `timestamp >= since` filter | trades at ts 100 (price 10.0) and ts 200 (price 20.0) in one market, `since` = 150, bucket 300: the candle's open is 10.0 while its low is 20.0 | open and close are taken from the selected trades, so `low <= open <= high` and `low <= close <= high` | not executed | Ohlcv.AsWrittenOpenOutOfRange | Ohlcv.CandlesWellFormed |
