/** The funding sweep (funding_rate.py): a premium-based rate clamped to a
    band, charged from one side of the book to the other in proportion to
    each position's notional. The oracle's mark and index prices are
    parameters. */
module FundingRate {
  import opened Common
  import opened Margin
  import opened FuturesRecords
  import opened FuturesLedger

  const FundingFactor: real := 0.0003
  const MaxRate: real := 0.0075

  /** `compute_funding_rate`: the premium of mark over index, scaled and
      clamped to [-MaxRate, MaxRate]; 0 without a positive index. */
  function ComputeFundingRate(mark: real, index: real): (r: real)
    ensures -MaxRate <= r <= MaxRate
    ensures index <= 0.0 ==> r == 0.0
  {
    if index <= 0.0 then 0.0
    else
      var premium := (mark - index) / index;
      var rate := premium * FundingFactor;
      var capped := if MaxRate <= rate then MaxRate else rate;
      if -MaxRate >= capped then -MaxRate else capped
  }

  /** Inside the band the clamp does nothing. */
  lemma FundingRateInBand(mark: real, index: real)
    requires index > 0.0
    requires -MaxRate <= (mark - index) / index * FundingFactor <= MaxRate
    ensures ComputeFundingRate(mark, index) == (mark - index) / index * FundingFactor
  {
  }

  /** The rate has the sign of mark minus index: longs pay exactly when the
      mark trades above the index. */
  lemma FundingRateSign(mark: real, index: real)
    requires index > 0.0
    ensures var r := ComputeFundingRate(mark, index);
      (r > 0.0 <==> mark > index) && (r < 0.0 <==> mark < index) && (r == 0.0 <==> mark == index)
  {
    var premium := (mark - index) / index;
    assert premium * index == mark - index;
    if mark > index {
      assert premium > 0.0;
    } else if mark < index {
      assert premium < 0.0;
    } else {
      assert premium == 0.0;
    }
  }

  /** `int(abs(rate) * notional)`. */
  function FundingPayment(rate: real, sizeSats: int, mark: real): (r: int)
    requires mark != 0.0
    ensures sizeSats >= 0 ==> 0 <= r && r as real <= AbsReal(rate) * SatsToMsats(sizeSats) as real
  {
    var notional := NotionalMsats(sizeSats, mark);
    var x := AbsReal(rate) * notional as real;
    assert sizeSats >= 0 ==> x >= 0.0 by {
      if sizeSats >= 0 { MulNonNegReal(AbsReal(rate), notional as real); }
    }
    Trunc(x)
  }

  lemma MulNonNegReal(x: real, y: real)
    requires x >= 0.0 && y >= 0.0
    ensures x * y >= 0.0
  {
  }

  /** Which side pays: longs for a positive rate, shorts otherwise. */
  predicate Pays(rate: real, side: Side)
  {
    if rate > 0.0 then side == Long else side == Short
  }

  /** One position after the sweep: untouched for a zero payment; a payer
      loses the payment (its collateral floored at 0) and its funding cost
      rises by it; a receiver gains it and its funding cost falls by it. */
  function Funded(p: Position, rate: real, mark: real, now: int): (r: Position)
    requires mark != 0.0
    ensures r.(fundingCostMsats := p.fundingCostMsats, collateralMsats := p.collateralMsats, updatedAt := p.updatedAt) == p
  {
    var pay := FundingPayment(rate, p.sizeSats, mark);
    if pay == 0 then p
    else if Pays(rate, p.side) then WithFunding(p, pay, Max(0, p.collateralMsats - pay), now)
    else WithFunding(p, -pay, p.collateralMsats + pay, now)
  }

  /** A payer's collateral never goes negative, and a receiver's grows by the
      payment. */
  lemma FundedCollateral(p: Position, rate: real, mark: real, now: int)
    requires mark != 0.0 && p.sizeSats >= 0
    ensures var r := Funded(p, rate, mark, now);
      var pay := FundingPayment(rate, p.sizeSats, mark);
      (Pays(rate, p.side) && pay != 0 ==>
         r.collateralMsats >= 0 && r.collateralMsats >= p.collateralMsats - pay && r.collateralMsats <= Max(p.collateralMsats, 0)) &&
      (!Pays(rate, p.side) ==> r.collateralMsats == p.collateralMsats + pay && r.collateralMsats >= p.collateralMsats)
  {
  }

  /** The funding cost records exactly the collateral moved, except where a
      payer's collateral was floored at 0: there the cost records more than
      was actually taken. */
  lemma FundingCostTracksCollateral(p: Position, rate: real, mark: real, now: int)
    requires mark != 0.0
    ensures var r := Funded(p, rate, mark, now);
      var pay := FundingPayment(rate, p.sizeSats, mark);
      var clamped := pay != 0 && Pays(rate, p.side) && p.collateralMsats < pay;
      (!clamped ==> r.collateralMsats + r.fundingCostMsats == p.collateralMsats + p.fundingCostMsats) &&
      (clamped ==> r.collateralMsats + r.fundingCostMsats > p.collateralMsats + p.fundingCostMsats)
  {
  }

  /** The positions table after the sweep over one market. */
  function FundingSweep(s: seq<Position>, market: string, rate: real, mark: real, now: int): (r: seq<Position>)
    requires mark != 0.0
    ensures |r| == |s|
    ensures forall i :: 0 <= i < |s| ==> r[i] == if s[i].market == market then Funded(s[i], rate, mark, now) else s[i]
  {
    seq(|s|, i requires 0 <= i < |s| => if s[i].market == market then Funded(s[i], rate, mark, now) else s[i])
  }

  /** The `debited` counter: payments charged to payers, counted in full. */
  function Debits(ps: seq<Position>, rate: real, mark: real): int
    requires mark != 0.0
  {
    if ps == [] then 0
    else
      var p := ps[|ps| - 1];
      Debits(ps[..|ps| - 1], rate, mark) + (if Pays(rate, p.side) then FundingPayment(rate, p.sizeSats, mark) else 0)
  }

  /** The `credited` counter: payments credited to receivers. */
  function Credits(ps: seq<Position>, rate: real, mark: real): int
    requires mark != 0.0
  {
    if ps == [] then 0
    else
      var p := ps[|ps| - 1];
      Credits(ps[..|ps| - 1], rate, mark) + (if Pays(rate, p.side) then 0 else FundingPayment(rate, p.sizeSats, mark))
  }

  /** The sweep is not zero-sum: a long with no collateral left is charged
      a payment that the short still receives in full, so the counters
      balance while the collateral on the books grows. */
  lemma FundingNotZeroSum()
    ensures var long := Position(0, "a", BtcUsdPerp, Long, 100000000, 100.0, 0, 1, 0.0, 0, 0, 0);
      var short := Position(1, "b", BtcUsdPerp, Short, 100000000, 100.0, 0, 1, 200.0, 0, 0, 0);
      var rate := ComputeFundingRate(200.0, 100.0);
      Debits([long, short], rate, 200.0) == Credits([long, short], rate, 200.0) == 30000000 &&
      Funded(long, rate, 200.0, 1).collateralMsats + Funded(short, rate, 200.0, 1).collateralMsats == 30000000
  {
    var long := Position(0, "a", BtcUsdPerp, Long, 100000000, 100.0, 0, 1, 0.0, 0, 0, 0);
    var short := Position(1, "b", BtcUsdPerp, Short, 100000000, 100.0, 0, 1, 200.0, 0, 0, 0);
    var rate := ComputeFundingRate(200.0, 100.0);
    assert (200.0 - 100.0) / 100.0 == 1.0;
    assert rate == 0.0003;
    assert NotionalMsats(100000000, 200.0) == 100000000000;
    assert AbsReal(rate) * 100000000000 as real == 30000000.0;
    assert FundingPayment(rate, 100000000, 200.0) == 30000000;
    assert [long, short][..1] == [long];
    assert [long][..0] == [];
    assert Debits([long], rate, 200.0) == 30000000;
    assert Credits([long], rate, 200.0) == 0;
  }

  /** What one run of `apply_funding_for_market` reports. */
  datatype FundingOutcome =
    | Skipped
    | Applied(rate: real, positionsProcessed: nat, debitedMsats: int, creditedMsats: int)

  /** `apply_funding_for_market`: skipped without both oracle prices;
      otherwise every position of the market is charged or paid and one
      funding record is appended. */
  method ApplyFundingForMarket(l: Ledger, market: string, mark: Option<real>, index: Option<real>, now: int)
    returns (out: FundingOutcome)
    requires l.Valid()
    modifies l
    ensures l.Valid()
    ensures !Truthy(mark) || !Truthy(index) ==> out == Skipped && l.State() == old(l.State())
    ensures Truthy(mark) && Truthy(index) ==>
      var rate := ComputeFundingRate(mark.value, index.value);
      var snapshot := PositionsInMarket(old(l.positions), market);
      && out == Applied(rate, |snapshot|, Debits(snapshot, rate, mark.value), Credits(snapshot, rate, mark.value))
      && l.State() == old(l.State()).(
           positions := FundingSweep(old(l.positions), market, rate, mark.value, now),
           fundingRates := old(l.fundingRates) + [FundingRecord(old(l.nextId), market, rate, mark.value, index.value, now)],
           nextId := old(l.nextId) + 1)
  {
    if !Truthy(mark) || !Truthy(index) {
      return Skipped;
    }
    var rate := ComputeFundingRate(mark.value, index.value);
    var processed, debited, credited := SweepMarket(l, market, rate, mark.value, now);
    var _ := l.RecordFundingRate(market, rate, mark.value, index.value, now);
    out := Applied(rate, processed, debited, credited);
  }

  /** The loop of `apply_funding_for_market` over the market's positions. */
  method SweepMarket(l: Ledger, market: string, rate: real, m: real, now: int)
    returns (processed: nat, debited: int, credited: int)
    requires l.Valid() && m != 0.0
    modifies l
    ensures l.Valid()
    ensures var snapshot := PositionsInMarket(old(l.positions), market);
      processed == |snapshot| && debited == Debits(snapshot, rate, m) && credited == Credits(snapshot, rate, m)
    ensures l.State() == old(l.State()).(positions := FundingSweep(old(l.positions), market, rate, m, now))
  {
    var snapshot := PositionsInMarket(l.positions, market);
    ghost var start := l.State();
    credited := 0;
    debited := 0;
    var k := 0;
    while k < |snapshot|
      invariant 0 <= k <= |snapshot|
      invariant l.Valid()
      invariant SweptPrefix(l.positions, start.positions, snapshot[..k], rate, m, now)
      invariant l.State() == start.(positions := l.positions)
      invariant debited == Debits(snapshot[..k], rate, m) && credited == Credits(snapshot[..k], rate, m)
    {
      debited, credited := SweepOne(l, snapshot, k, debited, credited, start, rate, m, now);
      k := k + 1;
    }
    assert snapshot[..k] == snapshot;
    SweptAll(l.positions, start.positions, market, rate, m, now);
    processed := |snapshot|;
  }

  /** One pass of the sweep loop: charge the `k`-th position of the
      snapshot and add its payment to the counters. */
  method SweepOne(l: Ledger, snapshot: seq<Position>, k: int, debited: int, credited: int, ghost start: Tables,
                  rate: real, m: real, now: int)
    returns (debited': int, credited': int)
    requires l.Valid() && m != 0.0 && 0 <= k < |snapshot|
    requires DistinctPositionIds(start.positions) && DistinctPositionIds(snapshot)
    requires forall p :: p in snapshot ==> p in start.positions
    requires SweptPrefix(l.positions, start.positions, snapshot[..k], rate, m, now)
    requires l.State() == start.(positions := l.positions)
    requires debited == Debits(snapshot[..k], rate, m) && credited == Credits(snapshot[..k], rate, m)
    modifies l
    ensures l.Valid()
    ensures SweptPrefix(l.positions, start.positions, snapshot[..k + 1], rate, m, now)
    ensures l.State() == start.(positions := l.positions)
    ensures debited' == Debits(snapshot[..k + 1], rate, m) && credited' == Credits(snapshot[..k + 1], rate, m)
  {
    CountersStep(snapshot, k, rate, m);
    SweepStep(start.positions, snapshot, k, l.positions, rate, m, now);
    ghost var rows := ChargedRows(l.positions, snapshot[k], rate, m, now);
    var debit, credit := ChargePosition(l, snapshot[k], rate, m, now);
    assert l.positions == rows;
    debited' := debited + debit;
    credited' := credited + credit;
  }

  /** The counters over one more position of the snapshot. */
  lemma CountersStep(ps: seq<Position>, k: int, rate: real, m: real)
    requires 0 <= k < |ps| && m != 0.0
    ensures var pay := FundingPayment(rate, ps[k].sizeSats, m);
      && Debits(ps[..k + 1], rate, m) == Debits(ps[..k], rate, m) + (if Pays(rate, ps[k].side) then pay else 0)
      && Credits(ps[..k + 1], rate, m) == Credits(ps[..k], rate, m) + (if Pays(rate, ps[k].side) then 0 else pay)
  {
    assert ps[..k + 1][..k] == ps[..k];
  }

  /** After charging the positions in `done`: exactly their rows have been
      funded, and every other row is as it was. */
  ghost predicate SweptPrefix(cur: seq<Position>, start: seq<Position>, done: seq<Position>, rate: real, m: real, now: int)
    requires m != 0.0
  {
    |cur| == |start| &&
    forall j :: 0 <= j < |start| ==>
      cur[j] == if start[j] in done then Funded(start[j], rate, m, now) else start[j]
  }

  /** The positions table after charging one position. */
  function ChargedRows(cur: seq<Position>, pos: Position, rate: real, m: real, now: int): seq<Position>
    requires m != 0.0
  {
    ChargedRowsBy(cur, pos, FundingPayment(rate, pos.sizeSats, m), Pays(rate, pos.side), now)
  }

  /** The positions table after moving `pay` out of (`payer`) or into the
      position's collateral; a payer's collateral does not go below 0. */
  function ChargedRowsBy(cur: seq<Position>, pos: Position, pay: int, payer: bool, now: int): seq<Position>
  {
    if pay == 0 then cur
    else if payer then UpdatePositionRows(cur, pos.id, pay, Max(0, pos.collateralMsats - pay), now)
    else UpdatePositionRows(cur, pos.id, -pay, pos.collateralMsats + pay, now)
  }

  /** The body of the sweep for one position. */
  method ChargePosition(l: Ledger, pos: Position, rate: real, m: real, now: int) returns (debit: int, credit: int)
    requires l.Valid() && m != 0.0
    modifies l
    ensures l.Valid()
    ensures var pay := FundingPayment(rate, pos.sizeSats, m);
      && debit == (if Pays(rate, pos.side) then pay else 0)
      && credit == (if Pays(rate, pos.side) then 0 else pay)
    ensures l.State() == old(l.State()).(positions := ChargedRows(old(l.positions), pos, rate, m, now))
  {
    var pay := FundingPayment(rate, pos.sizeSats, m);
    debit, credit := ApplyCharge(l, pos, pay, Pays(rate, pos.side), now);
  }

  /** The funding `UPDATE` of one position: a payer's collateral is reduced
      (floored at 0), a receiver's increased, and nothing is written for a
      payment of 0. */
  method ApplyCharge(l: Ledger, pos: Position, pay: int, payer: bool, now: int) returns (debit: int, credit: int)
    requires l.Valid()
    modifies l
    ensures l.Valid()
    ensures debit == (if payer then pay else 0) && credit == (if payer then 0 else pay)
    ensures l.State() == old(l.State()).(positions := ChargedRowsBy(old(l.positions), pos, pay, payer, now))
  {
    debit, credit := 0, 0;
    if pay == 0 {
      return;
    }
    ghost var rows := ChargedRowsBy(l.positions, pos, pay, payer, now);
    if payer {
      var newCol := pos.collateralMsats - pay;
      if newCol < 0 {
        newCol := 0;
      }
      assert rows == UpdatePositionRows(l.positions, pos.id, pay, newCol, now);
      var _ := l.UpdatePositionFunding(pos.id, pay, newCol, now);
      debit := pay;
    } else {
      var newCol := pos.collateralMsats + pay;
      assert rows == UpdatePositionRows(l.positions, pos.id, -pay, newCol, now);
      var _ := l.UpdatePositionFunding(pos.id, -pay, newCol, now);
      credit := pay;
    }
  }

  /** Charging the k-th snapshot position touches exactly that position's
      row, which has not been charged yet. */
  lemma SweepStep(start: seq<Position>, snapshot: seq<Position>, k: int, cur: seq<Position>, rate: real, m: real, now: int)
    requires m != 0.0
    requires DistinctPositionIds(start) && DistinctPositionIds(snapshot)
    requires forall p :: p in snapshot ==> p in start
    requires 0 <= k < |snapshot|
    requires SweptPrefix(cur, start, snapshot[..k], rate, m, now)
    ensures SweptPrefix(ChargedRows(cur, snapshot[k], rate, m, now), start, snapshot[..k + 1], rate, m, now)
  {
    var pos := snapshot[k];
    assert snapshot[..k + 1] == snapshot[..k] + [pos];
    assert pos !in snapshot[..k];
    assert pos in start;
    var at :| 0 <= at < |start| && start[at] == pos;
    forall j | 0 <= j < |start| && j != at
      ensures start[j].id != pos.id
    {
      if j < at { assert start[j].id != start[at].id; } else { assert start[at].id != start[j].id; }
    }
  }

  /** At the end of the loop every market row has been funded. */
  lemma SweptAll(cur: seq<Position>, start: seq<Position>, market: string, rate: real, m: real, now: int)
    requires m != 0.0
    requires SweptPrefix(cur, start, PositionsInMarket(start, market), rate, m, now)
    ensures cur == FundingSweep(start, market, rate, m, now)
  {
  }
}
