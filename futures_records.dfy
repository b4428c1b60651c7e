/** Rows of the futures tables (futures_ledger.py:37-123). Row ids, which the
    source draws from uuid4, are serials handed out by the ledger. */
module FuturesRecords {
  import opened Common
  import opened Margin

  datatype OrderType = Limit | Market

  datatype OrderStatus = Open | PartiallyFilled | Filled | Cancelled

  datatype Account = Account(collateralMsats: int, createdAt: int, updatedAt: int)

  datatype Order = Order(
    id: nat,
    pubkey: string,
    market: string,
    side: Side,
    orderType: OrderType,
    sizeSats: int,
    priceUsd: Option<real>,
    leverage: int,
    status: OrderStatus,
    filledSizeSats: int,
    nostrEventId: Option<string>,
    createdAt: int,
    updatedAt: int)

  datatype Position = Position(
    id: nat,
    pubkey: string,
    market: string,
    side: Side,
    sizeSats: int,
    entryPriceUsd: real,
    collateralMsats: int,
    leverage: int,
    liquidationPriceUsd: real,
    fundingCostMsats: int,
    createdAt: int,
    updatedAt: int)

  datatype Trade = Trade(
    id: nat,
    market: string,
    buyerPubkey: string,
    sellerPubkey: string,
    sizeSats: int,
    priceUsd: real,
    buyOrderId: nat,
    sellOrderId: nat,
    timestamp: int)

  datatype FundingRecord = FundingRecord(
    id: nat,
    market: string,
    rate: real,
    markPriceUsd: real,
    indexPriceUsd: real,
    timestamp: int)

  /** Python's truthiness of an optional price: None and 0.0 are false. */
  predicate Truthy(p: Option<real>)
  {
    p.Some? && p.value != 0.0
  }

  /** `a or b` on optional prices. */
  function OrElse(p: Option<real>, fallback: real): real
  {
    if Truthy(p) then p.value else fallback
  }

  /** No two rows of a table share an id (the PRIMARY KEY). */
  predicate DistinctOrderIds(s: seq<Order>)
  {
    forall i, j :: 0 <= i < j < |s| ==> s[i].id != s[j].id
  }

  predicate DistinctPositionIds(s: seq<Position>)
  {
    forall i, j :: 0 <= i < j < |s| ==> s[i].id != s[j].id
  }

  function SizesOf(s: seq<Position>): seq<int>
  {
    seq(|s|, i requires 0 <= i < |s| => s[i].sizeSats)
  }

  /** Rows kept by `SELECT * FROM positions WHERE market = ?`, in table order. */
  function PositionsInMarket(s: seq<Position>, market: string): (r: seq<Position>)
    ensures forall p :: p in r <==> p in s && p.market == market
    ensures |r| <= |s|
    ensures DistinctPositionIds(s) ==> DistinctPositionIds(r)
  {
    if s == [] then []
    else
      var init := s[..|s| - 1];
      var last := s[|s| - 1];
      assert s == init + [last];
      var rest := PositionsInMarket(init, market);
      var r := rest + (if last.market == market then [last] else []);
      assert DistinctPositionIds(s) ==> DistinctPositionIds(r) by {
        if DistinctPositionIds(s) && last.market == market {
          assert DistinctPositionIds(init);
          forall i | 0 <= i < |rest| ensures rest[i].id != last.id {
            assert rest[i] in init;
            var k :| 0 <= k < |init| && init[k] == rest[i];
          }
        }
      }
      r
  }
}
