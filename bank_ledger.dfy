/** The bank's balance ledger (ledger.py): per-pubkey spendable and savings
    balances in millisatoshis, and an append-only transaction log. The
    SQLite database is one `Bank` object: the account table is a map plus
    the sequence of its keys in insertion order (the order in which an
    unordered SELECT returns rows), the transaction table a sequence. The
    clock is a parameter; uuid4 transaction ids are serials. */
module BankLedger {
  import opened Common

  datatype BankAccount = BankAccount(balanceMsats: int, savingsMsats: int, createdAt: int, updatedAt: int)

  /** The `type` column. */
  datatype TxKind = DepositTx | WithdrawalTx | TransferOutTx | TransferInTx | SavingsAddTx | SavingsRemoveTx | YieldCreditTx

  /** The transaction table's PRIMARY KEY. A transfer keys its two rows by
      the caller's transfer id with the suffixes "-debit" and "-credit";
      distinct constructors stand for distinct strings. */
  datatype TxId = Generated(serial: nat) | TransferDebit(transferId: string) | TransferCredit(transferId: string)

  datatype Transaction = Transaction(
    id: TxId,
    pubkey: string,
    kind: TxKind,
    amountMsats: int,
    balanceAfterMsats: int,
    invoiceId: Option<string>,
    zapRequestId: Option<string>,
    counterparty: Option<string>,
    createdAt: int)

  /** What a single-account operation returns. */
  datatype Receipt = Receipt(txId: TxId, pubkey: string, amountMsats: int, balanceAfterMsats: int,
                             savingsAfterMsats: int, createdAt: int)

  /** What `transfer_internal` returns. */
  datatype TransferReceipt = TransferReceipt(fromPubkey: string, toPubkey: string, amountMsats: int,
                                             fromBalanceAfter: int, toBalanceAfter: int, createdAt: int)

  /** Everything the ledger database holds, as one value. */
  datatype BankState = BankState(accounts: map<string, BankAccount>, keys: seq<string>,
                                 transactions: seq<Transaction>, nextSerial: nat)

  /** No pubkey appears twice: each is new when it is inserted. */
  predicate DistinctKeys(keys: seq<string>)
  {
    forall i :: 0 <= i < |keys| ==> keys[i] !in keys[..i]
  }

  /** Dropping the newest key keeps the rest distinct, and it was new. */
  lemma DistinctKeysInit(keys: seq<string>)
    requires DistinctKeys(keys) && keys != []
    ensures DistinctKeys(keys[..|keys| - 1]) && keys[|keys| - 1] !in keys[..|keys| - 1]
  {
    var init := keys[..|keys| - 1];
    forall i | 0 <= i < |init| ensures init[i] !in init[..i] {
      assert init[..i] == keys[..i];
    }
  }

  /** The account table: every pubkey once, in insertion order. */
  ghost predicate WellKeyed(s: BankState)
  {
    DistinctKeys(s.keys) && forall k :: k in s.keys <==> k in s.accounts
  }

  predicate DistinctTxIds(txs: seq<Transaction>)
  {
    forall i, j :: 0 <= i < j < |txs| ==> txs[i].id != txs[j].id
  }

  predicate TxIdUsed(txs: seq<Transaction>, id: TxId)
  {
    exists t :: t in txs && t.id == id
  }

  /** `get_balance_msats`: a missing account reads as 0. */
  function Balance(s: BankState, pubkey: string): int
  {
    if pubkey in s.accounts then s.accounts[pubkey].balanceMsats else 0
  }

  /** `get_savings_balance_msats`: a missing account reads as 0. */
  function Savings(s: BankState, pubkey: string): int
  {
    if pubkey in s.accounts then s.accounts[pubkey].savingsMsats else 0
  }

  /** No balance of either kind is negative. */
  predicate NonNegative(s: BankState)
  {
    forall k :: k in s.accounts ==> s.accounts[k].balanceMsats >= 0 && s.accounts[k].savingsMsats >= 0
  }

  /** Every account other than `pubkey` is untouched. */
  ghost predicate OthersUnchanged(s: BankState, r: BankState, pubkey: string)
  {
    forall k :: k != pubkey ==> (k in s.accounts <==> k in r.accounts) && (k in s.accounts ==> s.accounts[k] == r.accounts[k])
  }

  // ---------------------------------------------------------------------
  // Totals over the account table
  // ---------------------------------------------------------------------

  /** Which balance a total adds up: spendable, savings, or both. */
  datatype Pot = Spendable | Saved | Held

  function Amount(a: BankAccount, pot: Pot): int
  {
    match pot
    case Spendable => a.balanceMsats
    case Saved => a.savingsMsats
    case Held => a.balanceMsats + a.savingsMsats
  }

  function AmountAt(accounts: map<string, BankAccount>, k: string, pot: Pot): int
  {
    if k in accounts then Amount(accounts[k], pot) else 0
  }

  function Total(keys: seq<string>, accounts: map<string, BankAccount>, pot: Pot): int
  {
    if keys == [] then 0
    else Total(keys[..|keys| - 1], accounts, pot) + AmountAt(accounts, keys[|keys| - 1], pot)
  }

  /** `SUM(...)` over the whole account table (`get_total_savings_msats` for
      the savings pot). */
  function TotalOf(s: BankState, pot: Pot): int
  {
    Total(s.keys, s.accounts, pot)
  }

  lemma {:induction false} TotalOutside(keys: seq<string>, accounts: map<string, BankAccount>, k: string, a: BankAccount, pot: Pot)
    requires k !in keys
    ensures Total(keys, accounts[k := a], pot) == Total(keys, accounts, pot)
  {
    if keys != [] {
      TotalOutside(keys[..|keys| - 1], accounts, k, a, pot);
    }
  }

  lemma {:induction false} TotalUpdate(keys: seq<string>, accounts: map<string, BankAccount>, k: string, a: BankAccount, pot: Pot)
    requires DistinctKeys(keys) && k in keys
    ensures Total(keys, accounts[k := a], pot) == Total(keys, accounts, pot) - AmountAt(accounts, k, pot) + Amount(a, pot)
  {
    var init := keys[..|keys| - 1];
    assert keys == init + [keys[|keys| - 1]];
    DistinctKeysInit(keys);
    if keys[|keys| - 1] == k {
      TotalOutside(init, accounts, k, a, pot);
    } else {
      TotalUpdate(init, accounts, k, a, pot);
    }
  }

  /** Write one account row: an UPDATE of an existing row or an INSERT at
      the end of the table. */
  function PutAccount(s: BankState, k: string, a: BankAccount): BankState
  {
    if k in s.accounts then s.(accounts := s.accounts[k := a])
    else s.(accounts := s.accounts[k := a], keys := s.keys + [k])
  }

  /** Writing one row keeps the table well keyed and leaves every other
      row alone. */
  lemma PutAccountKeyed(s: BankState, k: string, a: BankAccount)
    requires WellKeyed(s)
    ensures var r := PutAccount(s, k, a);
      WellKeyed(r) && OthersUnchanged(s, r, k) && k in r.accounts && r.accounts[k] == a
  {
    var r := PutAccount(s, k, a);
    if k !in s.accounts {
      assert DistinctKeys(r.keys) by {
        forall i | 0 <= i < |r.keys| ensures r.keys[i] !in r.keys[..i] {
          if i < |s.keys| {
            assert r.keys[..i] == s.keys[..i];
          } else {
            assert r.keys[..i] == s.keys;
          }
        }
      }
    }
  }

  /** The table stays well keyed after one write. */
  lemma PutKeepsKeyed(s: BankState, k: string, a: BankAccount)
    requires WellKeyed(s)
    ensures WellKeyed(PutAccount(s, k, a))
  {
    PutAccountKeyed(s, k, a);
  }

  /** Writing one row moves every total by exactly the change in that row. */
  lemma PutAccountTotal(s: BankState, k: string, a: BankAccount, pot: Pot)
    requires DistinctKeys(s.keys) && (k in s.keys <==> k in s.accounts)
    ensures TotalOf(PutAccount(s, k, a), pot) == TotalOf(s, pot) - AmountAt(s.accounts, k, pot) + Amount(a, pot)
  {
    var r := PutAccount(s, k, a);
    if k in s.accounts {
      TotalUpdate(s.keys, s.accounts, k, a, pot);
    } else {
      TotalOutside(s.keys, s.accounts, k, a, pot);
      assert r.keys[..|r.keys| - 1] == s.keys;
    }
  }

  // ---------------------------------------------------------------------
  // The operations on values
  // ---------------------------------------------------------------------

  /** `get_or_create_account`: an existing account is left alone, a missing
      one is inserted with both balances at 0. */
  function Opened(s: BankState, pubkey: string, now: int): BankState
  {
    if pubkey in s.accounts then s else PutAccount(s, pubkey, BankAccount(0, 0, now, now))
  }

  /** Append one row with a fresh generated id. */
  function Log(s: BankState, pubkey: string, kind: TxKind, amount: int, after: int, invoiceId: Option<string>,
               zapRequestId: Option<string>, now: int): BankState
  {
    s.(transactions := s.transactions + [Transaction(Generated(s.nextSerial), pubkey, kind, amount, after,
                                                     invoiceId, zapRequestId, None, now)],
       nextSerial := s.nextSerial + 1)
  }

  /** Add to a spendable balance, inserting the account (with no savings)
      when it is missing: the UPDATE-then-INSERT of `credit_deposit` and the
      recipient's side of `transfer_internal`. */
  function AddSpendable(s: BankState, pubkey: string, amount: int, now: int): BankState
  {
    PutAccount(s, pubkey, WithSpendableAdded(s, pubkey, amount, now))
  }

  /** The row `AddSpendable` writes. */
  function WithSpendableAdded(s: BankState, pubkey: string, amount: int, now: int): BankAccount
  {
    if pubkey in s.accounts then s.accounts[pubkey].(balanceMsats := s.accounts[pubkey].balanceMsats + amount, updatedAt := now)
    else BankAccount(amount, 0, now, now)
  }

  /** `credit_deposit`. */
  function Deposited(s: BankState, pubkey: string, amount: int, invoiceId: string, zapRequestId: Option<string>,
                     now: int): BankState
  {
    var s1 := AddSpendable(s, pubkey, amount, now);
    Log(s1, pubkey, DepositTx, amount, Balance(s1, pubkey), Some(invoiceId), zapRequestId, now)
  }

  /** `debit_withdrawal`: None for a missing account or a short balance. */
  function Withdrawn(s: BankState, pubkey: string, amount: int, invoiceId: string, now: int): Option<BankState>
  {
    if pubkey !in s.accounts || s.accounts[pubkey].balanceMsats < amount then None
    else
      var a := s.accounts[pubkey];
      var after := a.balanceMsats - amount;
      Some(Log(PutAccount(s, pubkey, a.(balanceMsats := after, updatedAt := now)),
               pubkey, WithdrawalTx, -amount, after, Some(invoiceId), None, now))
  }

  /** `transfer_internal`: None for a self-transfer, a non-positive amount,
      a missing sender or a short balance; a transfer id already used raises
      on the PRIMARY KEY, which rolls the whole transaction back. */
  function Transferred(s: BankState, from: string, to: string, amount: int, transferId: string, now: int)
    : Result<Option<BankState>>
  {
    if from == to || amount <= 0 then Ok(None)
    else if from !in s.accounts || s.accounts[from].balanceMsats < amount then Ok(None)
    else if TxIdUsed(s.transactions, TransferDebit(transferId)) || TxIdUsed(s.transactions, TransferCredit(transferId))
    then Raised("IntegrityError")
    else
      var a := s.accounts[from];
      var fromAfter := a.balanceMsats - amount;
      var s1 := AddSpendable(PutAccount(s, from, a.(balanceMsats := fromAfter, updatedAt := now)), to, amount, now);
      Ok(Some(s1.(transactions := s1.transactions + [
        Transaction(TransferDebit(transferId), from, TransferOutTx, -amount, fromAfter, None, None, Some(to), now),
        Transaction(TransferCredit(transferId), to, TransferInTx, amount, Balance(s1, to), None, None, Some(from), now)])))
  }

  /** `savings_add`: None for a missing account or a short spendable balance. */
  function SavingsAdded(s: BankState, pubkey: string, amount: int, now: int): Option<BankState>
  {
    if pubkey !in s.accounts || s.accounts[pubkey].balanceMsats < amount then None
    else
      var a := s.accounts[pubkey];
      var spendable := a.balanceMsats - amount;
      Some(Log(PutAccount(s, pubkey, a.(balanceMsats := spendable, savingsMsats := a.savingsMsats + amount, updatedAt := now)),
               pubkey, SavingsAddTx, -amount, spendable, None, None, now))
  }

  /** `savings_remove`: None for a missing account or short savings. */
  function SavingsRemoved(s: BankState, pubkey: string, amount: int, now: int): Option<BankState>
  {
    if pubkey !in s.accounts || s.accounts[pubkey].savingsMsats < amount then None
    else
      var a := s.accounts[pubkey];
      var spendable := a.balanceMsats + amount;
      Some(Log(PutAccount(s, pubkey, a.(balanceMsats := spendable, savingsMsats := a.savingsMsats - amount, updatedAt := now)),
               pubkey, SavingsRemoveTx, amount, spendable, None, None, now))
  }

  /** `yield_credit`: None for a missing account; the row logs the savings
      balance after the credit. */
  function YieldCredited(s: BankState, pubkey: string, amount: int, now: int): Option<BankState>
  {
    if pubkey !in s.accounts then None
    else
      var a := s.accounts[pubkey];
      var savings := a.savingsMsats + amount;
      Some(Log(PutAccount(s, pubkey, a.(savingsMsats := savings, updatedAt := now)),
               pubkey, YieldCreditTx, amount, savings, None, None, now))
  }

  /** `get_all_savers`: the accounts with positive savings, in table order. */
  function SaversIn(keys: seq<string>, accounts: map<string, BankAccount>): (r: seq<(string, int)>)
    ensures forall p :: p in r <==> p.0 in keys && p.0 in accounts && p.1 == accounts[p.0].savingsMsats && p.1 > 0
    ensures DistinctKeys(keys) ==> forall i, j :: 0 <= i < j < |r| ==> r[i].0 != r[j].0
  {
    if keys == [] then []
    else
      var k := keys[|keys| - 1];
      var init := keys[..|keys| - 1];
      assert keys == init + [k];
      var rest := SaversIn(init, accounts);
      assert DistinctKeys(keys) ==> DistinctKeys(init) && k !in init by {
        if DistinctKeys(keys) { DistinctKeysInit(keys); }
      }
      if k in accounts && accounts[k].savingsMsats > 0 then
        assert DistinctKeys(keys) ==> forall i :: 0 <= i < |rest| ==> rest[i].0 != k by {
          if DistinctKeys(keys) {
            forall i | 0 <= i < |rest| ensures rest[i].0 != k {
              assert rest[i] in rest;
            }
          }
        }
        rest + [(k, accounts[k].savingsMsats)]
      else rest
  }

  function AllSavers(s: BankState): seq<(string, int)>
  {
    SaversIn(s.keys, s.accounts)
  }

  function SaverSavings(savers: seq<(string, int)>): int
  {
    if savers == [] then 0 else SaverSavings(savers[..|savers| - 1]) + savers[|savers| - 1].1
  }

  /** With no negative savings, the savers hold all the savings there are:
      their balances add up to `get_total_savings_msats`. */
  lemma {:induction false} SaversHoldAllSavings(keys: seq<string>, accounts: map<string, BankAccount>)
    requires forall k :: k in accounts ==> accounts[k].savingsMsats >= 0
    ensures SaverSavings(SaversIn(keys, accounts)) == Total(keys, accounts, Saved)
  {
    if keys != [] {
      var init := keys[..|keys| - 1];
      SaversHoldAllSavings(init, accounts);
      var rest := SaversIn(init, accounts);
      var k := keys[|keys| - 1];
      if k in accounts && accounts[k].savingsMsats > 0 {
        assert (rest + [(k, accounts[k].savingsMsats)])[..|rest|] == rest;
      }
    }
  }

  // ---------------------------------------------------------------------
  // What each operation does to the balances
  // ---------------------------------------------------------------------

  /** A deposit adds its amount to the spendable balance (a new account
      starts from it), changes no other balance, and logs one row carrying
      the new balance. */
  lemma DepositEffect(s: BankState, pubkey: string, amount: int, invoiceId: string, zapRequestId: Option<string>, now: int)
    requires WellKeyed(s)
    ensures var r := Deposited(s, pubkey, amount, invoiceId, zapRequestId, now);
      && WellKeyed(r) && OthersUnchanged(s, r, pubkey) && pubkey in r.accounts
      && Balance(r, pubkey) == Balance(s, pubkey) + amount
      && Savings(r, pubkey) == Savings(s, pubkey)
      && r.transactions == s.transactions + [Transaction(Generated(s.nextSerial), pubkey, DepositTx, amount,
                                                         Balance(r, pubkey), Some(invoiceId), zapRequestId, None, now)]
  {
    PutAccountKeyed(s, pubkey, WithSpendableAdded(s, pubkey, amount, now));
  }

  /** A deposit grows the ledger's holdings by its amount and leaves the
      savings total alone. */
  lemma DepositTotals(s: BankState, pubkey: string, amount: int, invoiceId: string, zapRequestId: Option<string>, now: int)
    requires WellKeyed(s)
    ensures var r := Deposited(s, pubkey, amount, invoiceId, zapRequestId, now);
      && TotalOf(r, Held) == TotalOf(s, Held) + amount
      && TotalOf(r, Saved) == TotalOf(s, Saved)
  {
    var a := WithSpendableAdded(s, pubkey, amount, now);
    var s1 := PutAccount(s, pubkey, a);
    assert TotalOf(Deposited(s, pubkey, amount, invoiceId, zapRequestId, now), Held) == TotalOf(s1, Held);
    assert TotalOf(Deposited(s, pubkey, amount, invoiceId, zapRequestId, now), Saved) == TotalOf(s1, Saved);
    PutAccountTotal(s, pubkey, a, Held);
    PutAccountTotal(s, pubkey, a, Saved);
  }

  /** A withdrawal is refused, changing nothing, exactly when the account is
      missing or holds less than the amount; otherwise it takes the amount
      from the spendable balance and logs it negated. */
  lemma WithdrawalEffect(s: BankState, pubkey: string, amount: int, invoiceId: string, now: int)
    requires WellKeyed(s)
    ensures var r := Withdrawn(s, pubkey, amount, invoiceId, now);
      && (r.None? <==> pubkey !in s.accounts || Balance(s, pubkey) < amount)
      && (r.Some? ==>
           && WellKeyed(r.value) && OthersUnchanged(s, r.value, pubkey)
           && Balance(r.value, pubkey) == Balance(s, pubkey) - amount >= 0
           && Savings(r.value, pubkey) == Savings(s, pubkey)
           && TotalOf(r.value, Held) == TotalOf(s, Held) - amount
           && r.value.transactions == s.transactions + [Transaction(Generated(s.nextSerial), pubkey, WithdrawalTx, -amount,
                                                                    Balance(r.value, pubkey), Some(invoiceId), None, None, now)])
  {
    if pubkey in s.accounts && s.accounts[pubkey].balanceMsats >= amount {
      var a := s.accounts[pubkey];
      PutAccountKeyed(s, pubkey, a.(balanceMsats := a.balanceMsats - amount, updatedAt := now));
      PutAccountTotal(s, pubkey, a.(balanceMsats := a.balanceMsats - amount, updatedAt := now), Held);
    }
  }

  /** A transfer is refused, changing nothing, for a self-transfer, a
      non-positive amount, a missing sender or a short balance, and raises
      for a transfer id already used; otherwise it goes through. */
  lemma TransferOutcome(s: BankState, from: string, to: string, amount: int, transferId: string, now: int)
    ensures var r := Transferred(s, from, to, amount, transferId, now);
      && (r == Ok(None) <==> from == to || amount <= 0 || from !in s.accounts || Balance(s, from) < amount)
      && (r.Raised? <==> !(from == to || amount <= 0 || from !in s.accounts || Balance(s, from) < amount)
                         && (TxIdUsed(s.transactions, TransferDebit(transferId)) || TxIdUsed(s.transactions, TransferCredit(transferId))))
  {
  }

  /** A transfer that goes through takes exactly the amount from the sender
      and gives it to the recipient (created if missing); no other account
      changes. */
  lemma TransferEffect(s: BankState, from: string, to: string, amount: int, transferId: string, now: int, t: BankState)
    requires WellKeyed(s) && Transferred(s, from, to, amount, transferId, now) == Ok(Some(t))
    ensures WellKeyed(t)
    ensures Balance(t, from) == Balance(s, from) - amount >= 0
    ensures Balance(t, to) == Balance(s, to) + amount
    ensures Savings(t, from) == Savings(s, from) && Savings(t, to) == Savings(s, to)
    ensures forall k :: k != from && k != to ==>
      (k in s.accounts <==> k in t.accounts) && (k in s.accounts ==> t.accounts[k] == s.accounts[k])
  {
    var a := s.accounts[from];
    var debited := a.(balanceMsats := a.balanceMsats - amount, updatedAt := now);
    var s1 := PutAccount(s, from, debited);
    PutAccountKeyed(s, from, debited);
    var debit, credit := TransferShape(s, from, to, amount, transferId, now, t);
    PutAccountKeyed(s1, to, WithSpendableAdded(s1, to, amount, now));
  }

  /** A transfer that goes through leaves the ledger's total holdings
      unchanged and logs two rows, the debit and then the credit. */
  lemma TransferConserves(s: BankState, from: string, to: string, amount: int, transferId: string, now: int, t: BankState)
    requires WellKeyed(s) && Transferred(s, from, to, amount, transferId, now) == Ok(Some(t))
    ensures TotalOf(t, Held) == TotalOf(s, Held)
    ensures |t.transactions| == |s.transactions| + 2 && t.transactions[..|s.transactions|] == s.transactions
    ensures t.transactions[|s.transactions|].amountMsats == -amount
    ensures t.transactions[|s.transactions| + 1].amountMsats == amount
  {
    var debit, credit := TransferShape(s, from, to, amount, transferId, now, t);
    MoveConserves(s, from, to, amount, now, t, [debit, credit]);
  }

  /** Debiting one row and crediting another by the same amount keeps the
      total held. */
  lemma MoveConserves(s: BankState, from: string, to: string, amount: int, now: int, t: BankState, logged: seq<Transaction>)
    requires WellKeyed(s) && from in s.accounts
    requires var a := s.accounts[from];
      var s1 := PutAccount(s, from, a.(balanceMsats := a.balanceMsats - amount, updatedAt := now));
      var c := PutAccount(s1, to, WithSpendableAdded(s1, to, amount, now));
      t == c.(transactions := s.transactions + logged)
    ensures TotalOf(t, Held) == TotalOf(s, Held)
  {
    var a := s.accounts[from];
    var s1 := PutAccount(s, from, a.(balanceMsats := a.balanceMsats - amount, updatedAt := now));
    DebitHeld(s, from, amount, now);
    CreditHeld(s1, to, amount, now);
    assert TotalOf(t, Held) == TotalOf(PutAccount(s1, to, WithSpendableAdded(s1, to, amount, now)), Held);
  }

  /** Taking an amount from one spendable balance lowers the total held by it. */
  lemma DebitHeld(s: BankState, from: string, amount: int, now: int)
    requires WellKeyed(s) && from in s.accounts
    ensures var a := s.accounts[from];
      var s1 := PutAccount(s, from, a.(balanceMsats := a.balanceMsats - amount, updatedAt := now));
      WellKeyed(s1) && TotalOf(s1, Held) == TotalOf(s, Held) - amount
  {
    var a := s.accounts[from];
    var debited := a.(balanceMsats := a.balanceMsats - amount, updatedAt := now);
    PutKeepsKeyed(s, from, debited);
    PutAccountTotal(s, from, debited, Held);
  }

  /** Adding an amount to one spendable balance raises the total held by it. */
  lemma CreditHeld(s: BankState, to: string, amount: int, now: int)
    requires WellKeyed(s)
    ensures TotalOf(AddSpendable(s, to, amount, now), Held) == TotalOf(s, Held) + amount
  {
    PutAccountTotal(s, to, WithSpendableAdded(s, to, amount, now), Held);
  }

  /** The state a transfer leaves: the sender's row debited, the recipient's
      row credited, and the two rows logged. */
  lemma TransferShape(s: BankState, from: string, to: string, amount: int, transferId: string, now: int, t: BankState)
    returns (debit: Transaction, credit: Transaction)
    requires Transferred(s, from, to, amount, transferId, now) == Ok(Some(t))
    ensures from in s.accounts
    ensures var a := s.accounts[from];
      var c := AddSpendable(PutAccount(s, from, a.(balanceMsats := a.balanceMsats - amount, updatedAt := now)), to, amount, now);
      && t == c.(transactions := c.transactions + [debit, credit])
      && debit == Transaction(TransferDebit(transferId), from, TransferOutTx, -amount, a.balanceMsats - amount,
                              None, None, Some(to), now)
      && credit == Transaction(TransferCredit(transferId), to, TransferInTx, amount, Balance(c, to),
                               None, None, Some(from), now)
  {
    var a := s.accounts[from];
    var s1 := AddSpendable(PutAccount(s, from, a.(balanceMsats := a.balanceMsats - amount, updatedAt := now)), to, amount, now);
    debit := Transaction(TransferDebit(transferId), from, TransferOutTx, -amount, a.balanceMsats - amount, None, None, Some(to), now);
    credit := Transaction(TransferCredit(transferId), to, TransferInTx, amount, Balance(s1, to), None, None, Some(from), now);
  }

  /** Moving into savings is refused, changing nothing, exactly when the
      account is missing or its spendable balance is short; otherwise the
      amount moves from spendable to savings and the account's holdings
      are unchanged. */
  lemma SavingsAddEffect(s: BankState, pubkey: string, amount: int, now: int)
    requires WellKeyed(s)
    ensures var r := SavingsAdded(s, pubkey, amount, now);
      && (r.None? <==> pubkey !in s.accounts || Balance(s, pubkey) < amount)
      && (r.Some? ==>
           && WellKeyed(r.value) && OthersUnchanged(s, r.value, pubkey)
           && Balance(r.value, pubkey) == Balance(s, pubkey) - amount >= 0
           && Savings(r.value, pubkey) == Savings(s, pubkey) + amount
           && TotalOf(r.value, Held) == TotalOf(s, Held)
           && TotalOf(r.value, Saved) == TotalOf(s, Saved) + amount
           && |r.value.transactions| == |s.transactions| + 1)
  {
    if pubkey in s.accounts && s.accounts[pubkey].balanceMsats >= amount {
      var a := s.accounts[pubkey];
      var b := a.(balanceMsats := a.balanceMsats - amount, savingsMsats := a.savingsMsats + amount, updatedAt := now);
      PutAccountKeyed(s, pubkey, b);
      PutAccountTotal(s, pubkey, b, Held);
      PutAccountTotal(s, pubkey, b, Saved);
    }
  }

  /** The mirror image: refused exactly when the account is missing or its
      savings are short; otherwise the amount moves back to spendable. */
  lemma SavingsRemoveEffect(s: BankState, pubkey: string, amount: int, now: int)
    requires WellKeyed(s)
    ensures var r := SavingsRemoved(s, pubkey, amount, now);
      && (r.None? <==> pubkey !in s.accounts || Savings(s, pubkey) < amount)
      && (r.Some? ==>
           && WellKeyed(r.value) && OthersUnchanged(s, r.value, pubkey)
           && Balance(r.value, pubkey) == Balance(s, pubkey) + amount
           && Savings(r.value, pubkey) == Savings(s, pubkey) - amount >= 0
           && TotalOf(r.value, Held) == TotalOf(s, Held)
           && TotalOf(r.value, Saved) == TotalOf(s, Saved) - amount
           && |r.value.transactions| == |s.transactions| + 1)
  {
    if pubkey in s.accounts && s.accounts[pubkey].savingsMsats >= amount {
      var a := s.accounts[pubkey];
      var b := a.(balanceMsats := a.balanceMsats + amount, savingsMsats := a.savingsMsats - amount, updatedAt := now);
      PutAccountKeyed(s, pubkey, b);
      PutAccountTotal(s, pubkey, b, Held);
      PutAccountTotal(s, pubkey, b, Saved);
    }
  }

  /** Moving an amount into savings and straight back out restores both
      balances. */
  lemma SavingsRoundTrip(s: BankState, pubkey: string, amount: int, t1: int, t2: int)
    requires Savings(s, pubkey) >= 0 && SavingsAdded(s, pubkey, amount, t1).Some?
    ensures var r := SavingsRemoved(SavingsAdded(s, pubkey, amount, t1).value, pubkey, amount, t2);
      r.Some? && Balance(r.value, pubkey) == Balance(s, pubkey) && Savings(r.value, pubkey) == Savings(s, pubkey)
  {
  }

  /** A yield credit touches only the account's savings, and is refused,
      changing nothing, exactly for a missing account. */
  lemma YieldCreditEffect(s: BankState, pubkey: string, amount: int, now: int)
    requires WellKeyed(s)
    ensures var r := YieldCredited(s, pubkey, amount, now);
      && (r.None? <==> pubkey !in s.accounts)
      && (r.Some? ==>
           && WellKeyed(r.value) && OthersUnchanged(s, r.value, pubkey) && r.value.keys == s.keys
           && Balance(r.value, pubkey) == Balance(s, pubkey)
           && Savings(r.value, pubkey) == Savings(s, pubkey) + amount
           && TotalOf(r.value, Saved) == TotalOf(s, Saved) + amount
           && TotalOf(r.value, Spendable) == TotalOf(s, Spendable))
  {
    if pubkey in s.accounts {
      var a := s.accounts[pubkey];
      var b := a.(savingsMsats := a.savingsMsats + amount, updatedAt := now);
      PutAccountKeyed(s, pubkey, b);
      PutAccountTotal(s, pubkey, b, Saved);
      PutAccountTotal(s, pubkey, b, Spendable);
    }
  }

  // ---------------------------------------------------------------------
  // The ledger database
  // ---------------------------------------------------------------------

  class Bank {
    var accounts: map<string, BankAccount>
    var keys: seq<string>
    var transactions: seq<Transaction>
    var nextSerial: nat

    function State(): BankState
      reads this
    {
      BankState(accounts, keys, transactions, nextSerial)
    }

    /** The PRIMARY KEYs hold and every generated id is below the next serial. */
    ghost predicate Valid()
      reads this
    {
      && WellKeyed(State())
      && DistinctTxIds(transactions)
      && (forall t :: t in transactions && t.id.Generated? ==> t.id.serial < nextSerial)
    }

    /** `init_db`: empty tables. */
    constructor ()
      ensures Valid()
      ensures State() == BankState(map[], [], [], 0)
    {
      accounts := map[];
      keys := [];
      transactions := [];
      nextSerial := 0;
    }

    /** Write one account row (UPDATE or INSERT). */
    method Put(pubkey: string, a: BankAccount)
      requires WellKeyed(State())
      modifies this
      ensures WellKeyed(State())
      ensures State() == PutAccount(old(State()), pubkey, a)
    {
      PutAccountKeyed(State(), pubkey, a);
      if pubkey !in accounts {
        keys := keys + [pubkey];
      }
      accounts := accounts[pubkey := a];
    }

    /** Append one row under a fresh generated id. */
    method Append(pubkey: string, kind: TxKind, amount: int, after: int, invoiceId: Option<string>,
                  zapRequestId: Option<string>, now: int)
      returns (id: TxId)
      requires Valid()
      modifies this
      ensures Valid()
      ensures id == Generated(old(nextSerial))
      ensures State() == Log(old(State()), pubkey, kind, amount, after, invoiceId, zapRequestId, now)
    {
      id := Generated(nextSerial);
      transactions := transactions + [Transaction(id, pubkey, kind, amount, after, invoiceId, zapRequestId, None, now)];
      nextSerial := nextSerial + 1;
    }

    method GetOrCreateAccount(pubkey: string, now: int) returns (a: BankAccount)
      requires Valid()
      modifies this
      ensures Valid()
      ensures State() == Opened(old(State()), pubkey, now)
      ensures a == accounts[pubkey]
      ensures old(pubkey in accounts) ==> a == old(accounts[pubkey])
      ensures old(pubkey !in accounts) ==> a == BankAccount(0, 0, now, now)
    {
      if pubkey !in accounts {
        Put(pubkey, BankAccount(0, 0, now, now));
      }
      a := accounts[pubkey];
    }

    method YieldCredit(pubkey: string, amount: int, now: int) returns (r: Option<Receipt>)
      requires Valid()
      modifies this
      ensures Valid()
      ensures var y := YieldCredited(old(State()), pubkey, amount, now);
        && (y.None? ==> r.None? && State() == old(State()))
        && (y.Some? ==>
             && State() == y.value
             && r == Some(Receipt(Generated(old(nextSerial)), pubkey, amount, Balance(State(), pubkey), Savings(State(), pubkey), now)))
    {
      if pubkey !in accounts {
        return None;
      }
      var a := accounts[pubkey];
      var savings := a.savingsMsats + amount;
      Put(pubkey, a.(savingsMsats := savings, updatedAt := now));
      var id := Append(pubkey, YieldCreditTx, amount, savings, None, None, now);
      r := Some(Receipt(id, pubkey, amount, a.balanceMsats, savings, now));
    }

    method CreditDeposit(pubkey: string, amount: int, invoiceId: string, zapRequestId: Option<string>, now: int)
      returns (r: Receipt)
      requires Valid()
      modifies this
      ensures Valid()
      ensures State() == Deposited(old(State()), pubkey, amount, invoiceId, zapRequestId, now)
      ensures r == Receipt(Generated(old(nextSerial)), pubkey, amount, Balance(State(), pubkey), Savings(State(), pubkey), now)
    {
      var newBalance := AddToSpendable(pubkey, amount, now);
      var id := Append(pubkey, DepositTx, amount, newBalance, Some(invoiceId), zapRequestId, now);
      r := Receipt(id, pubkey, amount, newBalance, accounts[pubkey].savingsMsats, now);
    }

    method DebitWithdrawal(pubkey: string, amount: int, invoiceId: string, now: int) returns (r: Option<Receipt>)
      requires Valid()
      modifies this
      ensures Valid()
      ensures var w := Withdrawn(old(State()), pubkey, amount, invoiceId, now);
        && (w.None? ==> r.None? && State() == old(State()))
        && (w.Some? ==>
             && State() == w.value
             && r == Some(Receipt(Generated(old(nextSerial)), pubkey, amount, Balance(State(), pubkey), Savings(State(), pubkey), now)))
    {
      if pubkey !in accounts || accounts[pubkey].balanceMsats < amount {
        return None;
      }
      var a := accounts[pubkey];
      var newBalance := a.balanceMsats - amount;
      Put(pubkey, a.(balanceMsats := newBalance, updatedAt := now));
      var id := Append(pubkey, WithdrawalTx, -amount, newBalance, Some(invoiceId), None, now);
      r := Some(Receipt(id, pubkey, amount, newBalance, a.savingsMsats, now));
    }

    /** The duplicate-id rollback is modelled by checking the two ids before
        any write, which leaves the same tables behind. */
    method TransferInternal(from: string, to: string, amount: int, transferId: string, now: int)
      returns (r: Result<Option<TransferReceipt>>)
      requires Valid()
      modifies this
      ensures Valid()
      ensures var t := Transferred(old(State()), from, to, amount, transferId, now);
        && (t.Raised? ==> r == Raised(t.error) && State() == old(State()))
        && (t == Ok(None) ==> r == Ok(None) && State() == old(State()))
        && (t.Ok? && t.value.Some? ==>
             && State() == t.value.value
             && r == Ok(Some(TransferReceipt(from, to, amount, Balance(State(), from), Balance(State(), to), now))))
    {
      if from == to || amount <= 0 {
        return Ok(None);
      }
      if from !in accounts || accounts[from].balanceMsats < amount {
        return Ok(None);
      }
      if TxIdUsed(transactions, TransferDebit(transferId)) || TxIdUsed(transactions, TransferCredit(transferId)) {
        return Raised("IntegrityError");
      }
      r := MoveFunds(from, to, amount, transferId, now);
    }

    /** The writes of a transfer that passed its checks: debit the sender,
        credit the recipient, log the two rows. */
    method MoveFunds(from: string, to: string, amount: int, transferId: string, now: int)
      returns (r: Result<Option<TransferReceipt>>)
      requires Valid() && from != to && amount > 0 && from in accounts && accounts[from].balanceMsats >= amount
      requires !TxIdUsed(transactions, TransferDebit(transferId)) && !TxIdUsed(transactions, TransferCredit(transferId))
      modifies this
      ensures Valid()
      ensures var t := Transferred(old(State()), from, to, amount, transferId, now);
        && t.Ok? && t.value.Some? && State() == t.value.value
        && r == Ok(Some(TransferReceipt(from, to, amount, Balance(State(), from), Balance(State(), to), now)))
    {
      ghost var s0 := State();
      ghost var expected := Transferred(s0, from, to, amount, transferId, now).value.value;
      ghost var debit', credit' := TransferShape(s0, from, to, amount, transferId, now, expected);
      var a := accounts[from];
      var fromAfter := a.balanceMsats - amount;
      ghost var s1 := PutAccount(s0, from, s0.accounts[from].(balanceMsats := fromAfter, updatedAt := now));
      ghost var c := AddSpendable(s1, to, amount, now);
      assert expected == c.(transactions := c.transactions + [debit', credit']);
      Put(from, a.(balanceMsats := fromAfter, updatedAt := now));
      assert State() == s1;
      var toAfter := AddToSpendable(to, amount, now);
      assert State() == c;
      var debit := Transaction(TransferDebit(transferId), from, TransferOutTx, -amount, fromAfter, None, None, Some(to), now);
      var credit := Transaction(TransferCredit(transferId), to, TransferInTx, amount, toAfter, None, None, Some(from), now);
      assert debit' == debit && credit' == credit;
      AppendPair(debit, credit);
      assert State() == c.(transactions := c.transactions + [debit, credit]);
      assert State() == expected;
      assert Transferred(s0, from, to, amount, transferId, now) == Ok(Some(State()));
      r := Ok(Some(TransferReceipt(from, to, amount, fromAfter, toAfter, now)));
    }

    /** The `UPDATE ... balance_msats + ?` or `INSERT` that credits an
        account's spendable balance; returns the new balance. */
    method AddToSpendable(pubkey: string, amount: int, now: int) returns (after: int)
      requires Valid()
      modifies this
      ensures Valid()
      ensures State() == AddSpendable(old(State()), pubkey, amount, now)
      ensures pubkey in accounts && after == accounts[pubkey].balanceMsats
    {
      if pubkey in accounts {
        var a := accounts[pubkey];
        Put(pubkey, a.(balanceMsats := a.balanceMsats + amount, updatedAt := now));
      } else {
        Put(pubkey, BankAccount(amount, 0, now, now));
      }
      after := accounts[pubkey].balanceMsats;
    }

    /** Append a transfer's two rows, whose ids are not yet in use. */
    method AppendPair(debit: Transaction, credit: Transaction)
      requires Valid()
      requires !TxIdUsed(transactions, debit.id) && !TxIdUsed(transactions, credit.id) && debit.id != credit.id
      requires !debit.id.Generated? && !credit.id.Generated?
      modifies this
      ensures Valid()
      ensures State() == old(State()).(transactions := old(transactions) + [debit, credit])
    {
      transactions := transactions + [debit, credit];
    }

    method SavingsAdd(pubkey: string, amount: int, now: int) returns (r: Option<Receipt>)
      requires Valid()
      modifies this
      ensures Valid()
      ensures var m := SavingsAdded(old(State()), pubkey, amount, now);
        && (m.None? ==> r.None? && State() == old(State()))
        && (m.Some? ==>
             && State() == m.value
             && r == Some(Receipt(Generated(old(nextSerial)), pubkey, amount, Balance(State(), pubkey), Savings(State(), pubkey), now)))
    {
      if pubkey !in accounts || accounts[pubkey].balanceMsats < amount {
        return None;
      }
      var a := accounts[pubkey];
      var spendable := a.balanceMsats - amount;
      var savings := a.savingsMsats + amount;
      Put(pubkey, a.(balanceMsats := spendable, savingsMsats := savings, updatedAt := now));
      var id := Append(pubkey, SavingsAddTx, -amount, spendable, None, None, now);
      r := Some(Receipt(id, pubkey, amount, spendable, savings, now));
    }

    method SavingsRemove(pubkey: string, amount: int, now: int) returns (r: Option<Receipt>)
      requires Valid()
      modifies this
      ensures Valid()
      ensures var m := SavingsRemoved(old(State()), pubkey, amount, now);
        && (m.None? ==> r.None? && State() == old(State()))
        && (m.Some? ==>
             && State() == m.value
             && r == Some(Receipt(Generated(old(nextSerial)), pubkey, amount, Balance(State(), pubkey), Savings(State(), pubkey), now)))
    {
      if pubkey !in accounts || accounts[pubkey].savingsMsats < amount {
        return None;
      }
      var a := accounts[pubkey];
      var spendable := a.balanceMsats + amount;
      var savings := a.savingsMsats - amount;
      Put(pubkey, a.(balanceMsats := spendable, savingsMsats := savings, updatedAt := now));
      var id := Append(pubkey, SavingsRemoveTx, amount, spendable, None, None, now);
      r := Some(Receipt(id, pubkey, amount, spendable, savings, now));
    }
  }
}
