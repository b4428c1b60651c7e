// Pro-rata distribution of a yield pool over the savers of the bank ledger:
// floored shares, the remainder to the largest saver, then one yield credit
// per positive share.

module YieldDistribution {
  import opened Common
  import opened BankLedger

  /** One entry of the `credits` list. */
  datatype Credit = Credit(pubkey: string, amountMsats: int)

  /** What `distribute_yield` returns. */
  datatype Distribution = Distribution(saverCount: int, totalDistributedMsats: int, credits: seq<Credit>)

  /** Python's `//`: floor division, for a divisor of either sign. */
  function FloorDiv(a: int, b: int): (r: int)
    requires b != 0
    ensures b > 0 ==> r * b <= a < r * b + b
    ensures b < 0 ==> r * b + b < a <= r * b
  {
    if b > 0 then a / b
    else
      var q := (-a) / (-b);
      assert q * (-b) <= -a < q * (-b) + (-b);
      q
  }

  /** The floored pro-rata share of each saver, in saver order. */
  function Floored(savers: seq<(string, int)>, amount: int, total: int): (r: seq<int>)
    requires total != 0
    ensures |r| == |savers|
    ensures forall i :: 0 <= i < |r| ==> r[i] == FloorDiv(savers[i].1 * amount, total)
  {
    if savers == [] then []
    else Floored(savers[..|savers| - 1], amount, total) + [FloorDiv(savers[|savers| - 1].1 * amount, total)]
  }

  /** `max(range(len(shares)), key=savings)`: the first index holding the
      largest savings balance. */
  function FirstMax(savers: seq<(string, int)>): (r: nat)
    requires |savers| > 0
    ensures r < |savers|
    ensures forall j :: 0 <= j < |savers| ==> savers[j].1 <= savers[r].1
    ensures forall j :: 0 <= j < r ==> savers[j].1 < savers[r].1
  {
    if |savers| == 1 then 0
    else
      var m := FirstMax(savers[..|savers| - 1]);
      if savers[|savers| - 1].1 > savers[m].1 then |savers| - 1 else m
  }

  /** The shares `distribute_yield` credits: the floored shares, with a
      positive remainder added to the largest saver's. */
  function Shares(savers: seq<(string, int)>, amount: int, total: int): seq<int>
    requires total != 0
  {
    var f := Floored(savers, amount, total);
    var remainder := amount - Sum(f);
    if remainder > 0 && |f| > 0 then f[FirstMax(savers) := f[FirstMax(savers)] + remainder] else f
  }

  /** Crediting the shares in saver order: a share that is not positive is
      skipped, and so is a credit the ledger refuses. */
  function Credited(s: BankState, savers: seq<(string, int)>, shares: seq<int>, now: int): (BankState, seq<Credit>)
    requires |savers| == |shares|
  {
    if savers == [] then (s, [])
    else
      var n := |savers| - 1;
      var c := Credited(s, savers[..n], shares[..n], now);
      var y := YieldCredited(c.0, savers[n].0, shares[n], now);
      if shares[n] > 0 && y.Some? then (y.value, c.1 + [Credit(savers[n].0, shares[n])]) else c
  }

  function CreditTotal(credits: seq<Credit>): int
  {
    if credits == [] then 0 else CreditTotal(credits[..|credits| - 1]) + credits[|credits| - 1].amountMsats
  }

  function PositiveCount(shares: seq<int>): nat
  {
    if shares == [] then 0
    else PositiveCount(shares[..|shares| - 1]) + (if shares[|shares| - 1] > 0 then 1 else 0)
  }

  /** Whether `distribute_yield` returns before crediting anything. */
  predicate NothingToDistribute(s: BankState, amount: int)
  {
    amount <= 0 || TotalOf(s, Saved) == 0 || AllSavers(s) == []
  }

  // ---------------------------------------------------------------------
  // Arithmetic of the shares
  // ---------------------------------------------------------------------

  /** Each floored share loses less than one msat: over all savers the
      floors fall short of the exact pro-rata total by between 0 and
      `|savers| * (total - 1)` parts in `total`. */
  lemma {:induction false} FlooredSlack(savers: seq<(string, int)>, amount: int, total: int)
    requires total > 0
    ensures 0 <= SaverSavings(savers) * amount - total * Sum(Floored(savers, amount, total)) <= |savers| * (total - 1)
  {
    if savers == [] {
      assert SaverSavings(savers) == 0 && Sum(Floored(savers, amount, total)) == 0;
    } else {
      var n := |savers| - 1;
      var init := savers[..n];
      FlooredSlack(init, amount, total);
      var f := FloorDiv(savers[n].1 * amount, total);
      FlooredLast(savers, amount, total);
      var ss, sm := SaverSavings(init), Sum(Floored(init, amount, total));
      SlackStep(ss, savers[n].1, amount, sm, f, total, n);
      assert SaverSavings(savers) * amount == (ss + savers[n].1) * amount;
      assert total * Sum(Floored(savers, amount, total)) == total * (sm + f);
    }
  }

  lemma FlooredLast(savers: seq<(string, int)>, amount: int, total: int)
    requires total != 0 && savers != []
    ensures var n := |savers| - 1;
      && Sum(Floored(savers, amount, total)) == Sum(Floored(savers[..n], amount, total)) + FloorDiv(savers[n].1 * amount, total)
      && SaverSavings(savers) == SaverSavings(savers[..n]) + savers[n].1
  {
    var n := |savers| - 1;
    SumAppend(Floored(savers[..n], amount, total), FloorDiv(savers[n].1 * amount, total));
  }

  /** One saver's step of `FlooredSlack`, on plain integers. */
  lemma SlackStep(ss: int, x: int, amount: int, sm: int, f: int, total: int, n: nat)
    requires total > 0
    requires 0 <= ss * amount - total * sm <= n * (total - 1)
    requires f * total <= x * amount < f * total + total
    ensures 0 <= (ss + x) * amount - total * (sm + f) <= (n + 1) * (total - 1)
  {
    MulDistributes(ss, x, amount);
    MulDistributes(sm, f, total);
    MulDistributes(n, 1, total - 1);
  }

  lemma MulDistributes(a: int, b: int, c: int)
    ensures (a + b) * c == a * c + b * c && c * (a + b) == c * a + c * b
  {
  }

  /** When the savers hold the whole savings total, the remainder left by the
      floors is never negative and is less than the number of savers. */
  lemma RemainderBelowSaverCount(savers: seq<(string, int)>, amount: int, total: int)
    requires total > 0 && SaverSavings(savers) == total && |savers| > 0
    ensures 0 <= amount - Sum(Floored(savers, amount, total)) < |savers|
  {
    FlooredSlack(savers, amount, total);
    QuotientBounds(total, amount, Sum(Floored(savers, amount, total)), |savers|);
  }

  /** From `0 <= t * a - t * s <= n * (t - 1)` with `t > 0`: `0 <= a - s < n`. */
  lemma QuotientBounds(t: int, a: int, s: int, n: int)
    requires t > 0 && n > 0
    requires 0 <= t * a - t * s <= n * (t - 1)
    ensures 0 <= a - s < n
  {
    var rem := a - s;
    assert t * rem == t * a - t * s by { MulDistributes(a, -s, t); }
    if rem < 0 {
      MulNegative(t, rem);
    }
    if rem >= n {
      MulMonotone(t, n, rem);
    }
  }

  lemma MulNegative(a: int, b: int)
    requires a > 0 && b < 0
    ensures a * b < 0
  {
  }

  lemma MulMonotone(a: int, b: int, c: int)
    requires a > 0 && b <= c
    ensures a * b <= a * c
  {
  }

  lemma {:induction false} SumUpdate(s: seq<int>, i: int, d: int)
    requires 0 <= i < |s|
    ensures Sum(s[i := s[i] + d]) == Sum(s) + d
  {
    var n := |s| - 1;
    var t := s[i := s[i] + d];
    assert t[..n] == if i == n then s[..n] else s[..n][i := s[i] + d];
    if i < n {
      SumUpdate(s[..n], i, d);
    }
  }

  /** The shares add up to exactly the amount distributed when the savers
      hold the whole savings total. */
  lemma SharesAddUp(savers: seq<(string, int)>, amount: int, total: int)
    requires total > 0 && SaverSavings(savers) == total && |savers| > 0
    ensures Sum(Shares(savers, amount, total)) == amount
  {
    var f := Floored(savers, amount, total);
    RemainderBelowSaverCount(savers, amount, total);
    if amount - Sum(f) > 0 {
      SumUpdate(f, FirstMax(savers), amount - Sum(f));
    }
  }

  /** Every saver receives its floored pro-rata share; only the first saver
      with the largest balance receives more, by the remainder, which is
      less than the number of savers. No share is negative. */
  lemma SharesProRata(savers: seq<(string, int)>, amount: int, total: int)
    requires total > 0 && SaverSavings(savers) == total && |savers| > 0
    requires amount >= 0 && forall i :: 0 <= i < |savers| ==> savers[i].1 >= 0
    ensures var r := Shares(savers, amount, total);
      && |r| == |savers|
      && (forall i :: 0 <= i < |r| ==> r[i] >= 0)
      && (forall i :: 0 <= i < |r| && i != FirstMax(savers) ==>
            r[i] * total <= savers[i].1 * amount < r[i] * total + total)
      && 0 <= r[FirstMax(savers)] - FloorDiv(savers[FirstMax(savers)].1 * amount, total) < |savers|
  {
    var f := Floored(savers, amount, total);
    RemainderBelowSaverCount(savers, amount, total);
    forall i | 0 <= i < |f|
      ensures f[i] >= 0
    {
      MulNonNeg(savers[i].1, amount);
    }
  }

  // ---------------------------------------------------------------------
  // Effect of the credits on the ledger
  // ---------------------------------------------------------------------

  /** The credits touch only savings: the account table keeps its keys and
      spendable balances, and the savings total grows by what was credited. */
  lemma {:induction false} CreditedEffect(s: BankState, savers: seq<(string, int)>, shares: seq<int>, now: int)
    requires WellKeyed(s) && |savers| == |shares|
    ensures var c := Credited(s, savers, shares, now);
      && WellKeyed(c.0) && c.0.keys == s.keys
      && (forall k :: Balance(c.0, k) == Balance(s, k))
      && TotalOf(c.0, Saved) == TotalOf(s, Saved) + CreditTotal(c.1)
      && TotalOf(c.0, Spendable) == TotalOf(s, Spendable)
  {
    if savers != [] {
      var n := |savers| - 1;
      var c := Credited(s, savers[..n], shares[..n], now);
      CreditedEffect(s, savers[..n], shares[..n], now);
      YieldCreditEffect(c.0, savers[n].0, shares[n], now);
      var y := YieldCredited(c.0, savers[n].0, shares[n], now);
      if shares[n] > 0 && y.Some? {
        var cs := c.1 + [Credit(savers[n].0, shares[n])];
        assert cs[..|cs| - 1] == c.1;
        forall k ensures Balance(y.value, k) == Balance(s, k) {
          if k != savers[n].0 {
            assert Balance(y.value, k) == Balance(c.0, k);
          }
        }
      }
    }
  }

  /** When every saver has an account and no share is negative, every
      positive share is credited: the credits add up to the shares and there
      is one per positive share. */
  lemma {:induction false} CreditedAll(s: BankState, savers: seq<(string, int)>, shares: seq<int>, now: int)
    requires WellKeyed(s) && |savers| == |shares|
    requires forall i :: 0 <= i < |savers| ==> savers[i].0 in s.accounts
    requires forall i :: 0 <= i < |shares| ==> shares[i] >= 0
    ensures var c := Credited(s, savers, shares, now);
      CreditTotal(c.1) == Sum(shares) && |c.1| == PositiveCount(shares)
  {
    if savers != [] {
      var n := |savers| - 1;
      var c := Credited(s, savers[..n], shares[..n], now);
      CreditedAll(s, savers[..n], shares[..n], now);
      CreditedEffect(s, savers[..n], shares[..n], now);
      assert savers[n].0 in c.0.accounts;
      if shares[n] > 0 {
        var cs := c.1 + [Credit(savers[n].0, shares[n])];
        assert cs[..|cs| - 1] == c.1;
      }
    }
  }

  /** In a ledger with no negative balance, a positive amount and a nonzero
      savings total, the whole amount reaches the savers: it is what the run
      reports as distributed and what the savings total grows by, and the
      spendable total does not move. */
  lemma DistributesExactly(s: BankState, amount: int, now: int)
    requires WellKeyed(s) && NonNegative(s)
    requires amount > 0 && TotalOf(s, Saved) != 0
    ensures !NothingToDistribute(s, amount)
    ensures var savers := AllSavers(s);
      var shares := Shares(savers, amount, TotalOf(s, Saved));
      var c := Credited(s, savers, shares, now);
      && CreditTotal(c.1) == amount
      && |c.1| == PositiveCount(shares) <= |savers|
      && TotalOf(c.0, Saved) == TotalOf(s, Saved) + amount
      && TotalOf(c.0, Spendable) == TotalOf(s, Spendable)
  {
    var savers := AllSavers(s);
    var total := TotalOf(s, Saved);
    SaversHoldAllSavings(s.keys, s.accounts);
    assert savers != [];
    forall i | 0 <= i < |savers|
      ensures savers[i].0 in s.accounts && savers[i].1 > 0
    {
      assert savers[i] in savers;
    }
    TotalPositive(savers);
    var shares := Shares(savers, amount, total);
    SharesAddUp(savers, amount, total);
    SharesProRata(savers, amount, total);
    CreditedAll(s, savers, shares, now);
    CreditedEffect(s, savers, shares, now);
    PositiveCountBound(shares);
  }

  lemma {:induction false} TotalPositive(savers: seq<(string, int)>)
    requires savers != [] && forall i :: 0 <= i < |savers| ==> savers[i].1 > 0
    ensures SaverSavings(savers) > 0
  {
    if |savers| > 1 {
      TotalPositive(savers[..|savers| - 1]);
    }
  }

  lemma {:induction false} PositiveCountBound(shares: seq<int>)
    ensures PositiveCount(shares) <= |shares|
  {
    if shares != [] {
      PositiveCountBound(shares[..|shares| - 1]);
    }
  }

  // ---------------------------------------------------------------------
  // distribute_yield
  // ---------------------------------------------------------------------

  /** The first half of `distribute_yield`: floor each share, keeping the
      floors' total, then hand a positive remainder to the largest saver. */
  method ComputeShares(savers: seq<(string, int)>, amount: int, total: int) returns (shares: seq<int>)
    requires total != 0
    ensures shares == Shares(savers, amount, total)
  {
    shares := [];
    var totalFloored := 0;
    var i := 0;
    while i < |savers|
      invariant 0 <= i <= |savers|
      invariant shares == Floored(savers[..i], amount, total)
      invariant totalFloored == Sum(shares)
    {
      var share := FloorDiv(savers[i].1 * amount, total);
      assert savers[..i + 1][..i] == savers[..i];
      SumAppend(shares, share);
      totalFloored := totalFloored + share;
      shares := shares + [share];
      i := i + 1;
    }
    assert savers[..i] == savers;
    var remainder := amount - totalFloored;
    if remainder > 0 && |shares| > 0 {
      var m := FirstMax(savers);
      shares := shares[m := shares[m] + remainder];
    }
  }

  /** The second half of `distribute_yield`: one yield credit per positive
      share, in saver order, recording the credits the ledger accepts. */
  method CreditShares(bank: Bank, savers: seq<(string, int)>, shares: seq<int>, now: int)
    returns (credits: seq<Credit>, totalDistributed: int)
    requires bank.Valid() && |savers| == |shares|
    modifies bank
    ensures bank.Valid()
    ensures (bank.State(), credits) == Credited(old(bank.State()), savers, shares, now)
    ensures totalDistributed == CreditTotal(credits)
  {
    ghost var s0 := bank.State();
    credits := [];
    totalDistributed := 0;
    var j := 0;
    assert savers[..0] == [] && shares[..0] == [];
    while j < |shares|
      invariant 0 <= j <= |shares|
      invariant bank.Valid()
      invariant (bank.State(), credits) == Credited(s0, savers[..j], shares[..j], now)
      invariant totalDistributed == CreditTotal(credits)
    {
      assert savers[..j + 1][..j] == savers[..j] && shares[..j + 1][..j] == shares[..j];
      var pubkey := savers[j].0;
      var share := shares[j];
      if share > 0 {
        var result := bank.YieldCredit(pubkey, share, now);
        if result.Some? {
          var cs := credits + [Credit(pubkey, share)];
          assert cs[..|cs| - 1] == credits;
          credits := cs;
          totalDistributed := totalDistributed + share;
        }
      }
      j := j + 1;
    }
    assert savers[..j] == savers && shares[..j] == shares;
  }

  method DistributeYield(bank: Bank, amount: int, now: int) returns (d: Distribution)
    requires bank.Valid()
    modifies bank
    ensures bank.Valid()
    ensures var s := old(bank.State());
      && (NothingToDistribute(s, amount) ==> d == Distribution(0, 0, []) && bank.State() == s)
      && (!NothingToDistribute(s, amount) ==>
           var savers := AllSavers(s);
           var c := Credited(s, savers, Shares(savers, amount, TotalOf(s, Saved)), now);
           bank.State() == c.0 && d == Distribution(|c.1|, CreditTotal(c.1), c.1))
  {
    if amount <= 0 {
      return Distribution(0, 0, []);
    }
    var total := TotalOf(bank.State(), Saved);
    if total == 0 {
      return Distribution(0, 0, []);
    }
    var savers := AllSavers(bank.State());
    if savers == [] {
      return Distribution(0, 0, []);
    }

    var shares := ComputeShares(savers, amount, total);
    var credits, totalDistributed := CreditShares(bank, savers, shares, now);
    d := Distribution(|credits|, totalDistributed, credits);
  }
}
