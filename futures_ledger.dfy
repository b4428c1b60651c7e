/** The futures tables and their CRUD helpers (futures_ledger.py). The SQLite
    database is one `Ledger` object: the account table is a map keyed by
    pubkey, the order, position, trade and funding tables are sequences in
    row order, and the single insurance-fund row is two fields. Row ids,
    which the source draws from uuid4, come from the serial `nextId`, so a
    new row's id is fresh by construction. Every method takes the clock
    reading `now` as a parameter. */
module FuturesLedger {
  import opened Common
  import opened Margin
  import opened FuturesRecords

  // ---------------------------------------------------------------------
  // Accounts
  // ---------------------------------------------------------------------

  /** `get_collateral_msats`: a missing account reads as 0. */
  function Collateral(accounts: map<string, Account>, pubkey: string): int
  {
    if pubkey in accounts then accounts[pubkey].collateralMsats else 0
  }

  /** Every account other than `pubkey` is untouched. */
  ghost predicate SameExcept(a: map<string, Account>, b: map<string, Account>, pubkey: string)
  {
    forall k :: k != pubkey ==> (k in a <==> k in b) && (k in a ==> a[k] == b[k])
  }

  /** `get_or_create_futures_account` on the account table: an existing
      account is left alone, a missing one is inserted with no collateral. */
  function EnsureAccount(accounts: map<string, Account>, pubkey: string, now: int): (r: map<string, Account>)
    ensures pubkey in r && SameExcept(accounts, r, pubkey)
    ensures Collateral(r, pubkey) == Collateral(accounts, pubkey)
    ensures pubkey in accounts ==> r[pubkey] == accounts[pubkey]
    ensures pubkey !in accounts ==> r[pubkey].createdAt == now && r[pubkey].collateralMsats == 0
  {
    if pubkey in accounts then accounts else accounts[pubkey := Account(0, now, now)]
  }

  /** Creating an account twice is the same as creating it once. */
  lemma EnsureAccountIdempotent(accounts: map<string, Account>, pubkey: string, t1: int, t2: int)
    ensures EnsureAccount(EnsureAccount(accounts, pubkey, t1), pubkey, t2) == EnsureAccount(accounts, pubkey, t1)
  {
  }

  /** `credit_collateral`: the account exists afterwards and holds exactly
      `amount` more than it read before. */
  function Credited(accounts: map<string, Account>, pubkey: string, amount: int, now: int): (r: map<string, Account>)
    ensures pubkey in r && SameExcept(accounts, r, pubkey)
    ensures Collateral(r, pubkey) == Collateral(accounts, pubkey) + amount
    ensures r[pubkey].updatedAt == now
  {
    var a := EnsureAccount(accounts, pubkey, now);
    a[pubkey := a[pubkey].(collateralMsats := a[pubkey].collateralMsats + amount, updatedAt := now)]
  }

  /** `debit_collateral`: refused (None) for a missing account or one holding
      less than `amount`; otherwise exactly `amount` is taken. */
  function Debited(accounts: map<string, Account>, pubkey: string, amount: int, now: int): (r: Option<map<string, Account>>)
    ensures r.None? <==> pubkey !in accounts || accounts[pubkey].collateralMsats < amount
    ensures r.Some? ==> pubkey in r.value && SameExcept(accounts, r.value, pubkey)
    ensures r.Some? ==> r.value[pubkey].collateralMsats == accounts[pubkey].collateralMsats - amount
    ensures r.Some? ==> r.value[pubkey].createdAt == accounts[pubkey].createdAt
    ensures r.Some? && amount <= accounts[pubkey].collateralMsats ==> r.value[pubkey].collateralMsats >= 0
  {
    if pubkey !in accounts || accounts[pubkey].collateralMsats < amount then None
    else Some(accounts[pubkey := accounts[pubkey].(collateralMsats := accounts[pubkey].collateralMsats - amount, updatedAt := now)])
  }

  /** `adjust_collateral`: refused for a missing account, and refused rather
      than letting the balance go below zero. */
  function Adjusted(accounts: map<string, Account>, pubkey: string, delta: int, now: int): (r: Option<map<string, Account>>)
    ensures r.None? <==> pubkey !in accounts || accounts[pubkey].collateralMsats + delta < 0
    ensures r.Some? ==> pubkey in r.value && SameExcept(accounts, r.value, pubkey)
    ensures r.Some? ==> r.value[pubkey].collateralMsats == accounts[pubkey].collateralMsats + delta
    ensures r.Some? ==> r.value[pubkey].collateralMsats >= 0
  {
    if pubkey !in accounts then None
    else
      var newBal := accounts[pubkey].collateralMsats + delta;
      if newBal < 0 then None
      else Some(accounts[pubkey := accounts[pubkey].(collateralMsats := newBal, updatedAt := now)])
  }

  /** Debiting what was just credited succeeds and restores the balance. */
  lemma CreditThenDebit(accounts: map<string, Account>, pubkey: string, amount: int, t1: int, t2: int)
    requires amount >= 0 && Collateral(accounts, pubkey) >= 0
    ensures var d := Debited(Credited(accounts, pubkey, amount, t1), pubkey, amount, t2);
      d.Some? && Collateral(d.value, pubkey) == Collateral(accounts, pubkey)
  {
  }

  /** A debit is an adjustment by the negated amount, whenever it succeeds. */
  lemma DebitIsNegativeAdjust(accounts: map<string, Account>, pubkey: string, amount: int, now: int)
    ensures Debited(accounts, pubkey, amount, now) == Adjusted(accounts, pubkey, -amount, now)
  {
  }

  // ---------------------------------------------------------------------
  // Orders
  // ---------------------------------------------------------------------

  /** `get_order`: the row with this id. */
  function FindOrder(s: seq<Order>, id: nat): (r: Option<Order>)
    ensures r.Some? ==> r.value in s && r.value.id == id
    ensures r.None? ==> forall o :: o in s ==> o.id != id
  {
    if s == [] then None
    else if s[0].id == id then Some(s[0])
    else FindOrder(s[1..], id)
  }

  /** The row `update_order_status` writes: status and updated_at always,
      filled_size_sats only when given. */
  function WithStatus(o: Order, status: OrderStatus, filled: Option<int>, now: int): (r: Order)
    ensures r.status == status && r.updatedAt == now
    ensures filled.Some? ==> r.filledSizeSats == filled.value
    ensures filled.None? ==> r.filledSizeSats == o.filledSizeSats
    ensures r.(status := o.status, filledSizeSats := o.filledSizeSats, updatedAt := o.updatedAt) == o
  {
    o.(status := status,
       filledSizeSats := if filled.Some? then filled.value else o.filledSizeSats,
       updatedAt := now)
  }

  /** `UPDATE orders ... WHERE id = ?` over the table. */
  function UpdateOrderRows(s: seq<Order>, id: nat, status: OrderStatus, filled: Option<int>, now: int): (r: seq<Order>)
    ensures |r| == |s|
    ensures forall i :: 0 <= i < |s| ==>
      r[i] == s[i] || (s[i].id == id && r[i] == WithStatus(s[i], status, filled, now))
    ensures forall i :: 0 <= i < |s| ==> r[i].id == s[i].id
  {
    seq(|s|, i requires 0 <= i < |s| => if s[i].id == id then WithStatus(s[i], status, filled, now) else s[i])
  }

  /** Read back by id, the update changed the row with that id (if any)
      and no other. */
  lemma {:induction false} UpdateOrderRowsFind(s: seq<Order>, id: nat, status: OrderStatus, filled: Option<int>, now: int, j: nat)
    ensures var r := UpdateOrderRows(s, id, status, filled, now);
      && (j != id ==> FindOrder(r, j) == FindOrder(s, j))
      && (FindOrder(s, id).None? ==> FindOrder(r, id).None?)
      && (FindOrder(s, id).Some? ==> FindOrder(r, id) == Some(WithStatus(FindOrder(s, id).value, status, filled, now)))
  {
    if s != [] {
      var r := UpdateOrderRows(s, id, status, filled, now);
      assert r[1..] == UpdateOrderRows(s[1..], id, status, filled, now);
      UpdateOrderRowsFind(s[1..], id, status, filled, now, j);
    }
  }

  // ---------------------------------------------------------------------
  // Positions
  // ---------------------------------------------------------------------

  /** `get_position`: the row with this id. */
  function FindPosition(s: seq<Position>, id: nat): (r: Option<Position>)
    ensures r.Some? ==> r.value in s && r.value.id == id
    ensures r.None? ==> forall p :: p in s ==> p.id != id
  {
    if s == [] then None
    else if s[0].id == id then Some(s[0])
    else FindPosition(s[1..], id)
  }

  /** `DELETE FROM positions WHERE id = ?`: exactly the rows with another id
      remain, in their order. */
  function RemovePositionRows(s: seq<Position>, id: nat): (r: seq<Position>)
    ensures forall p :: p in r <==> p in s && p.id != id
    ensures |r| <= |s|
    ensures (exists p :: p in s && p.id == id) ==> |r| < |s|
    ensures DistinctPositionIds(s) ==> DistinctPositionIds(r)
  {
    if s == [] then []
    else
      var init := s[..|s| - 1];
      var last := s[|s| - 1];
      assert s == init + [last];
      var rest := RemovePositionRows(init, id);
      var r := rest + (if last.id != id then [last] else []);
      assert DistinctPositionIds(s) ==> DistinctPositionIds(r) by {
        if DistinctPositionIds(s) && last.id != id {
          assert DistinctPositionIds(init);
          forall i | 0 <= i < |rest| ensures rest[i].id != last.id {
            assert rest[i] in init;
            var k :| 0 <= k < |init| && init[k] == rest[i];
          }
        }
      }
      r
  }

  /** The row `update_position_funding` writes: funding cost moves by the
      delta, the collateral is replaced, and nothing else changes. */
  function WithFunding(p: Position, fundingDelta: int, newCollateral: int, now: int): (r: Position)
    ensures r.fundingCostMsats == p.fundingCostMsats + fundingDelta
    ensures r.collateralMsats == newCollateral && r.updatedAt == now
    ensures r.(fundingCostMsats := p.fundingCostMsats, collateralMsats := p.collateralMsats, updatedAt := p.updatedAt) == p
  {
    p.(fundingCostMsats := p.fundingCostMsats + fundingDelta, collateralMsats := newCollateral, updatedAt := now)
  }

  /** `UPDATE positions ... WHERE id = ?` over the table. */
  function UpdatePositionRows(s: seq<Position>, id: nat, fundingDelta: int, newCollateral: int, now: int): (r: seq<Position>)
    ensures |r| == |s|
    ensures forall i :: 0 <= i < |s| ==>
      r[i] == (if s[i].id == id then WithFunding(s[i], fundingDelta, newCollateral, now) else s[i])
  {
    seq(|s|, i requires 0 <= i < |s| =>
      if s[i].id == id then WithFunding(s[i], fundingDelta, newCollateral, now) else s[i])
  }

  /** With unique ids, updating by id touches exactly one row. */
  lemma UpdateAtIndex(s: seq<Position>, i: int, fundingDelta: int, newCollateral: int, now: int)
    requires DistinctPositionIds(s) && 0 <= i < |s|
    ensures UpdatePositionRows(s, s[i].id, fundingDelta, newCollateral, now)
         == s[i := WithFunding(s[i], fundingDelta, newCollateral, now)]
  {
    var r := UpdatePositionRows(s, s[i].id, fundingDelta, newCollateral, now);
    forall j | 0 <= j < |s| && j != i ensures r[j] == s[j] {
      if j < i { assert s[j].id != s[i].id; } else { assert s[i].id != s[j].id; }
    }
  }

  /** `get_total_open_interest_sats`: summed size of the market's positions. */
  function OpenInterest(s: seq<Position>, market: string): int
  {
    Sum(SizesOf(PositionsInMarket(s, market)))
  }

  /** Opening a position adds its size to its market's open interest and
      leaves every other market's alone. */
  lemma {:induction false} OpenInterestAppend(s: seq<Position>, p: Position, market: string)
    ensures OpenInterest(s + [p], market)
         == OpenInterest(s, market) + (if p.market == market then p.sizeSats else 0)
  {
    var t := s + [p];
    assert t[..|t| - 1] == s;
    var m := PositionsInMarket(s, market);
    if p.market == market {
      assert SizesOf(m + [p]) == SizesOf(m) + [p.sizeSats];
      SumAppend(SizesOf(m), p.sizeSats);
    } else {
      assert m + [] == m;
    }
  }

  // ---------------------------------------------------------------------
  // Insurance fund
  // ---------------------------------------------------------------------

  /** `debit_insurance_fund`: the balance drops by the amount but never
      below zero. */
  function FundAfterDebit(balance: int, amount: int): (r: int)
    ensures r >= 0 && r >= balance - amount
    ensures r == balance - amount || r == 0
  {
    Max(0, balance - amount)
  }

  /** Everything the database holds, as one value. */
  datatype Tables = Tables(
    accounts: map<string, Account>,
    orders: seq<Order>,
    positions: seq<Position>,
    trades: seq<Trade>,
    fundingRates: seq<FundingRecord>,
    insuranceFundMsats: int,
    insuranceFundUpdatedAt: int,
    nextId: nat)

  class Ledger {
    var accounts: map<string, Account>
    var orders: seq<Order>
    var positions: seq<Position>
    var trades: seq<Trade>
    var fundingRates: seq<FundingRecord>
    var insuranceFundMsats: int
    var insuranceFundUpdatedAt: int
    var nextId: nat

    function State(): Tables
      reads this
    {
      Tables(accounts, orders, positions, trades, fundingRates,
             insuranceFundMsats, insuranceFundUpdatedAt, nextId)
    }

    /** The PRIMARY KEYs hold and every id in use is below the next serial. */
    ghost predicate Valid()
      reads this
    {
      && DistinctOrderIds(orders)
      && DistinctPositionIds(positions)
      && (forall o :: o in orders ==> o.id < nextId)
      && (forall p :: p in positions ==> p.id < nextId)
      && (forall t :: t in trades ==> t.id < nextId)
      && (forall f :: f in fundingRates ==> f.id < nextId)
    }

    /** `init_futures_db`: empty tables and an insurance fund of 0. */
    constructor (now: int)
      ensures Valid()
      ensures State() == Tables(map[], [], [], [], [], 0, now, 0)
    {
      accounts := map[];
      orders := [];
      positions := [];
      trades := [];
      fundingRates := [];
      insuranceFundMsats := 0;
      insuranceFundUpdatedAt := now;
      nextId := 0;
    }

    // --- accounts ---

    method GetOrCreateFuturesAccount(pubkey: string, now: int) returns (a: Account)
      requires Valid()
      modifies this
      ensures Valid()
      ensures State() == old(State()).(accounts := EnsureAccount(old(accounts), pubkey, now))
      ensures a == accounts[pubkey]
    {
      if pubkey !in accounts {
        accounts := accounts[pubkey := Account(0, now, now)];
      }
      a := accounts[pubkey];
    }

    function GetCollateralMsats(pubkey: string): int
      reads this
    {
      Collateral(accounts, pubkey)
    }

    method CreditCollateral(pubkey: string, amount: int, now: int) returns (balance: int)
      requires Valid()
      modifies this
      ensures Valid()
      ensures State() == old(State()).(accounts := Credited(old(accounts), pubkey, amount, now))
      ensures balance == Collateral(old(accounts), pubkey) + amount
    {
      var _ := GetOrCreateFuturesAccount(pubkey, now);
      accounts := accounts[pubkey := accounts[pubkey].(collateralMsats := accounts[pubkey].collateralMsats + amount, updatedAt := now)];
      balance := accounts[pubkey].collateralMsats;
    }

    method DebitCollateral(pubkey: string, amount: int, now: int) returns (balance: Option<int>)
      requires Valid()
      modifies this
      ensures Valid()
      ensures var d := Debited(old(accounts), pubkey, amount, now);
        (d.None? ==> balance.None? && State() == old(State())) &&
        (d.Some? ==> balance == Some(d.value[pubkey].collateralMsats) && State() == old(State()).(accounts := d.value))
    {
      if pubkey !in accounts || accounts[pubkey].collateralMsats < amount {
        return None;
      }
      var newBal := accounts[pubkey].collateralMsats - amount;
      accounts := accounts[pubkey := accounts[pubkey].(collateralMsats := newBal, updatedAt := now)];
      balance := Some(newBal);
    }

    method AdjustCollateral(pubkey: string, delta: int, now: int) returns (balance: Option<int>)
      requires Valid()
      modifies this
      ensures Valid()
      ensures var d := Adjusted(old(accounts), pubkey, delta, now);
        (d.None? ==> balance.None? && State() == old(State())) &&
        (d.Some? ==> balance == Some(d.value[pubkey].collateralMsats) && State() == old(State()).(accounts := d.value))
    {
      if pubkey !in accounts {
        return None;
      }
      var newBal := accounts[pubkey].collateralMsats + delta;
      if newBal < 0 {
        return None;
      }
      accounts := accounts[pubkey := accounts[pubkey].(collateralMsats := newBal, updatedAt := now)];
      balance := Some(newBal);
    }

    // --- orders ---

    /** `create_order`: a fresh open row with nothing filled. */
    method CreateOrder(pubkey: string, market: string, side: Side, orderType: OrderType, sizeSats: int,
                       leverage: int, priceUsd: Option<real>, nostrEventId: Option<string>, now: int)
      returns (o: Order)
      requires Valid()
      modifies this
      ensures Valid()
      ensures o == Order(old(nextId), pubkey, market, side, orderType, sizeSats, priceUsd, leverage,
                         Open, 0, nostrEventId, now, now)
      ensures State() == old(State()).(orders := old(orders) + [o], nextId := old(nextId) + 1)
    {
      o := Order(nextId, pubkey, market, side, orderType, sizeSats, priceUsd, leverage,
                 Open, 0, nostrEventId, now, now);
      orders := orders + [o];
      nextId := nextId + 1;
    }

    function GetOrder(id: nat): Option<Order>
      reads this
    {
      FindOrder(orders, id)
    }

    method UpdateOrderStatus(id: nat, status: OrderStatus, filled: Option<int>, now: int) returns (o: Option<Order>)
      requires Valid()
      modifies this
      ensures Valid()
      ensures State() == old(State()).(orders := UpdateOrderRows(old(orders), id, status, filled, now))
      ensures o == FindOrder(orders, id)
    {
      orders := UpdateOrderRows(orders, id, status, filled, now);
      o := FindOrder(orders, id);
    }

    // --- positions ---

    /** `create_position`: a fresh row with no funding cost yet. */
    method CreatePosition(pubkey: string, market: string, side: Side, sizeSats: int, entryPriceUsd: real,
                          collateralMsats: int, leverage: int, liquidationPriceUsd: real, now: int)
      returns (p: Position)
      requires Valid()
      modifies this
      ensures Valid()
      ensures p == Position(old(nextId), pubkey, market, side, sizeSats, entryPriceUsd, collateralMsats,
                            leverage, liquidationPriceUsd, 0, now, now)
      ensures State() == old(State()).(positions := old(positions) + [p], nextId := old(nextId) + 1)
    {
      p := Position(nextId, pubkey, market, side, sizeSats, entryPriceUsd, collateralMsats,
                    leverage, liquidationPriceUsd, 0, now, now);
      positions := positions + [p];
      nextId := nextId + 1;
    }

    function GetPosition(id: nat): Option<Position>
      reads this
    {
      FindPosition(positions, id)
    }

    /** `close_position`: true iff a row was deleted. */
    method ClosePosition(id: nat) returns (deleted: bool)
      requires Valid()
      modifies this
      ensures Valid()
      ensures State() == old(State()).(positions := RemovePositionRows(old(positions), id))
      ensures deleted <==> FindPosition(old(positions), id).Some?
    {
      deleted := FindPosition(positions, id).Some?;
      positions := RemovePositionRows(positions, id);
    }

    method UpdatePositionFunding(id: nat, fundingDelta: int, newCollateral: int, now: int) returns (p: Option<Position>)
      requires Valid()
      modifies this
      ensures Valid()
      ensures State() == old(State()).(positions := UpdatePositionRows(old(positions), id, fundingDelta, newCollateral, now))
      ensures p == FindPosition(positions, id)
    {
      positions := UpdatePositionRows(positions, id, fundingDelta, newCollateral, now);
      p := FindPosition(positions, id);
    }

    function GetTotalOpenInterestSats(market: string): int
      reads this
    {
      OpenInterest(positions, market)
    }

    // --- trades and funding records ---

    /** `record_trade`: appended to the immutable trade log. */
    method RecordTrade(market: string, buyerPubkey: string, sellerPubkey: string, sizeSats: int,
                       priceUsd: real, buyOrderId: nat, sellOrderId: nat, now: int)
      returns (t: Trade)
      requires Valid()
      modifies this
      ensures Valid()
      ensures t == Trade(old(nextId), market, buyerPubkey, sellerPubkey, sizeSats, priceUsd, buyOrderId, sellOrderId, now)
      ensures State() == old(State()).(trades := old(trades) + [t], nextId := old(nextId) + 1)
    {
      t := Trade(nextId, market, buyerPubkey, sellerPubkey, sizeSats, priceUsd, buyOrderId, sellOrderId, now);
      trades := trades + [t];
      nextId := nextId + 1;
    }

    method RecordFundingRate(market: string, rate: real, markPriceUsd: real, indexPriceUsd: real, now: int)
      returns (f: FundingRecord)
      requires Valid()
      modifies this
      ensures Valid()
      ensures f == FundingRecord(old(nextId), market, rate, markPriceUsd, indexPriceUsd, now)
      ensures State() == old(State()).(fundingRates := old(fundingRates) + [f], nextId := old(nextId) + 1)
    {
      f := FundingRecord(nextId, market, rate, markPriceUsd, indexPriceUsd, now);
      fundingRates := fundingRates + [f];
      nextId := nextId + 1;
    }

    // --- insurance fund ---

    method CreditInsuranceFund(amount: int, now: int) returns (balance: int)
      requires Valid()
      modifies this
      ensures Valid()
      ensures balance == old(insuranceFundMsats) + amount
      ensures State() == old(State()).(insuranceFundMsats := balance, insuranceFundUpdatedAt := now)
    {
      insuranceFundMsats := insuranceFundMsats + amount;
      insuranceFundUpdatedAt := now;
      balance := insuranceFundMsats;
    }

    method DebitInsuranceFund(amount: int, now: int) returns (balance: int)
      requires Valid()
      modifies this
      ensures Valid()
      ensures balance == FundAfterDebit(old(insuranceFundMsats), amount)
      ensures State() == old(State()).(insuranceFundMsats := balance, insuranceFundUpdatedAt := now)
    {
      balance := Max(0, insuranceFundMsats - amount);
      insuranceFundMsats := balance;
      insuranceFundUpdatedAt := now;
    }
  }
}
