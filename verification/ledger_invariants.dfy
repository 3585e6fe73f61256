/** What the ledger operations keep true. A store is consistent when every
    wallet row sits under its own id, no balance is negative, every balance
    equals the net of that wallet's transaction records (the wallet row is a
    projection of the log), and every record points at existing wallets.
    Starting from an empty store, the operations with the guards the
    edge-case tests expect keep it consistent; the two operations as written
    do not. */
module LedgerInvariants {
  import opened Wrappers
  import opened Ledger

  /** Net amount the log records for wallet `id`. */
  function LogTotal(log: seq<TxRecord>, id: WalletId): int {
    if |log| == 0 then 0
    else LogTotal(log[..|log| - 1], id) + (if log[|log| - 1].walletId == id then log[|log| - 1].amount else 0)
  }

  /** Appending records adds their net to each wallet's total. */
  lemma {:induction false} LogTotalAppend(log: seq<TxRecord>, recs: seq<TxRecord>, id: WalletId)
    ensures LogTotal(log + recs, id) == LogTotal(log, id) + LogTotal(recs, id)
    decreases |recs|
  {
    if |recs| > 0 {
      var init := recs[..|recs| - 1];
      assert (log + recs)[..|log + recs| - 1] == log + init;
      assert (log + recs)[|log + recs| - 1] == recs[|recs| - 1];
      LogTotalAppend(log, init, id);
    } else {
      assert log + recs == log;
    }
  }

  /** A wallet no record mentions has a net of zero. */
  lemma {:induction false} LogTotalOfStranger(log: seq<TxRecord>, id: WalletId)
    requires forall i :: 0 <= i < |log| ==> log[i].walletId != id
    ensures LogTotal(log, id) == 0
  {
    if |log| > 0 {
      LogTotalOfStranger(log[..|log| - 1], id);
    }
  }

  ghost predicate RecordsReferenceWallets(st: Store) {
    forall i :: 0 <= i < |st.log| ==>
      st.log[i].walletId in st.wallets
      && (st.log[i].target.Some? ==> st.log[i].target.value in st.wallets)
  }

  ghost predicate Consistent(st: Store) {
    && (forall id :: id in st.wallets ==> st.wallets[id].id == id)
    && (forall id :: id in st.wallets ==> st.wallets[id].balance >= 0)
    && (forall id :: id in st.wallets ==> st.wallets[id].balance == LogTotal(st.log, id))
    && RecordsReferenceWallets(st)
  }

  lemma EmptyStoreConsistent()
    ensures Consistent(Store(map[], []))
  {
  }

  /** The net of one record for each wallet. */
  lemma LogTotalSingle(rec: TxRecord, id: WalletId)
    ensures LogTotal([rec], id) == if rec.walletId == id then rec.amount else 0
  {
    assert [rec][..0] == [];
  }

  /** The net of a transfer pair for each wallet. */
  lemma LogTotalPair(sender: WalletId, receiver: WalletId, amount: int, id: WalletId)
    ensures LogTotal(TransferPair(sender, receiver, amount), id)
            == (if sender == id then -amount else 0) + (if receiver == id then amount else 0)
  {
    var p := TransferPair(sender, receiver, amount);
    assert p[..1] == [p[0]];
    LogTotalSingle(p[0], id);
  }

  /** `createWalletForUser` keeps a store consistent. */
  lemma CreatePreservesConsistent(st: Store, userId: UserId, walletId: WalletId)
    requires Consistent(st) && walletId !in st.wallets
    ensures Consistent(CreateWalletForUser(st, userId, walletId).0)
  {
    LogTotalOfStranger(st.log, walletId);
  }

  /** Appending `recs` to a consistent store whose balances moved exactly by
      the records' nets, with no record naming an unknown wallet, gives a
      consistent store as long as no balance went negative. */
  lemma {:induction false} AppendKeepsConsistent(st: Store, st': Store, recs: seq<TxRecord>)
    requires Consistent(st)
    requires st'.wallets.Keys == st.wallets.Keys && st'.log == st.log + recs
    requires forall id :: id in st.wallets ==> st'.wallets[id].id == id
    requires forall id :: id in st.wallets ==> st'.wallets[id].balance >= 0
    requires forall id :: id in st.wallets ==>
               st'.wallets[id].balance == st.wallets[id].balance + LogTotal(recs, id)
    requires forall i :: 0 <= i < |recs| ==>
               recs[i].walletId in st.wallets
               && (recs[i].target.Some? ==> recs[i].target.value in st.wallets)
    ensures Consistent(st')
  {
    forall id | id in st'.wallets
      ensures st'.wallets[id].balance == LogTotal(st'.log, id)
    {
      LogTotalAppend(st.log, recs, id);
    }
    forall i | 0 <= i < |st'.log|
      ensures st'.log[i].walletId in st'.wallets
      ensures st'.log[i].target.Some? ==> st'.log[i].target.value in st'.wallets
    {
      if i >= |st.log| {
        assert st'.log[i] == recs[i - |st.log|];
      }
    }
  }

  /** `fundWallet` with its amount guard keeps a store consistent. */
  lemma FundGuardedPreservesConsistent(st: Store, walletId: WalletId, amount: int)
    requires Consistent(st)
    ensures var r := FundWalletGuarded(st, walletId, amount);
            r.Success? ==> Consistent(r.value.0)
  {
    var r := FundWalletGuarded(st, walletId, amount);
    if r.Success? {
      var rec := TxRecord(walletId, Fund, amount, None);
      forall id | id in st.wallets {
        LogTotalSingle(rec, id);
      }
      AppendKeepsConsistent(st, r.value.0, [rec]);
    }
  }

  /** `withdrawFunds` keeps a store consistent. */
  lemma WithdrawPreservesConsistent(st: Store, walletId: WalletId, amount: int)
    requires Consistent(st)
    ensures var r := WithdrawFunds(st, walletId, amount);
            r.Success? ==> Consistent(r.value.0)
  {
    var r := WithdrawFunds(st, walletId, amount);
    if r.Success? {
      var rec := TxRecord(walletId, Withdraw, -amount, None);
      forall id | id in st.wallets {
        LogTotalSingle(rec, id);
      }
      AppendKeepsConsistent(st, r.value.0, [rec]);
    }
  }

  /** `transferFunds` with its self-transfer guard keeps a store consistent. */
  lemma TransferGuardedPreservesConsistent(st: Store, sender: WalletId, receiver: WalletId, amount: int)
    requires Consistent(st)
    ensures var r := TransferFundsGuarded(st, sender, receiver, amount);
            r.Success? ==> Consistent(r.value.0)
  {
    var r := TransferFundsGuarded(st, sender, receiver, amount);
    if r.Success? {
      var recs := TransferPair(sender, receiver, amount);
      forall id | id in st.wallets {
        LogTotalPair(sender, receiver, amount, id);
      }
      AppendKeepsConsistent(st, r.value.0, recs);
    }
  }

  // ---------------------------------------------------------------------
  // Sequences of requests, each its own committed transaction
  // ---------------------------------------------------------------------

  /** A money-movement request. */
  datatype Movement =
    | FundRequest(walletId: WalletId, amount: int)
    | WithdrawRequest(walletId: WalletId, amount: int)
    | TransferRequest(sender: WalletId, receiver: WalletId, amount: int)

  /** One request run to completion with the guards the edge-case tests
      expect: the new store, or the error it was rejected with. */
  function Apply(st: Store, m: Movement): (r: Result<Store, LedgerError>)
    ensures r.Success? ==> r.value.wallets.Keys == st.wallets.Keys
    ensures r.Success? ==> |r.value.log| > |st.log| && r.value.log[..|st.log|] == st.log
  {
    match m
    case FundRequest(id, a) =>
      var r :- FundWalletGuarded(st, id, a);
      Success(r.0)
    case WithdrawRequest(id, a) =>
      var r :- WithdrawFunds(st, id, a);
      Success(r.0)
    case TransferRequest(s, t, a) =>
      var r :- TransferFundsGuarded(st, s, t, a);
      Success(r.0)
  }

  /** Requests applied one after another; a rejected request leaves the
      store as it was. */
  function Run(st: Store, ms: seq<Movement>): (st': Store)
    ensures st'.wallets.Keys == st.wallets.Keys
    ensures |st.log| <= |st'.log| && st'.log[..|st.log|] == st.log
    decreases |ms|
  {
    if |ms| == 0 then st
    else
      var r := Apply(st, ms[0]);
      var next := if r.Success? then r.value else st;
      Run(next, ms[1..])
  }

  /** However many requests run, a consistent store stays consistent: no
      balance goes negative and every balance still matches the log. */
  lemma {:induction false} RunPreservesConsistent(st: Store, ms: seq<Movement>)
    requires Consistent(st)
    ensures Consistent(Run(st, ms))
    decreases |ms|
  {
    if |ms| > 0 {
      var r := Apply(st, ms[0]);
      match ms[0] {
        case FundRequest(id, a) => FundGuardedPreservesConsistent(st, id, a);
        case WithdrawRequest(id, a) => WithdrawPreservesConsistent(st, id, a);
        case TransferRequest(s, t, a) => TransferGuardedPreservesConsistent(st, s, t, a);
      }
      var next := if r.Success? then r.value else st;
      RunPreservesConsistent(next, ms[1..]);
    }
  }

  /** Two transfers out of the same wallet that together exceed its balance,
      run one after the other: the first succeeds, the second is rejected
      with "Insufficient funds", and the sender ends debited exactly once. */
  lemma SecondOverdrawingTransferRejected(st: Store, sender: WalletId, receiver: WalletId, amount: int)
    requires sender in st.wallets && receiver in st.wallets && sender != receiver
    requires 0 < amount <= st.wallets[sender].balance < 2 * amount
    ensures var first := TransferFundsGuarded(st, sender, receiver, amount);
            && first.Success?
            && TransferFundsGuarded(first.value.0, sender, receiver, amount) == Failure(InsufficientFunds)
            && first.value.0.wallets[sender].balance == st.wallets[sender].balance - amount
  {
  }

  // ---------------------------------------------------------------------
  // The operations as written
  // ---------------------------------------------------------------------

  /** `fundWallet` as written credits a negative amount, so it can leave a
      wallet with a negative balance. */
  lemma FundWalletCanOverdraw(st: Store, walletId: WalletId, amount: int)
    requires walletId in st.wallets && st.wallets[walletId].balance + amount < 0
    ensures var r := FundWallet(st, walletId, amount);
            && r.Success?
            && r.value.1.balance < 0
            && !Consistent(r.value.0)
  {
  }

  /** A concrete consistent store on which the unguarded `fundWallet(w, -100)`
      drives a 50-cent balance to -50 cents. */
  lemma FundWalletOverdrawExample()
    ensures var st := Store(map["w" := Wallet("w", "u", 50)], [TxRecord("w", Fund, 50, None)]);
            && Consistent(st)
            && FundWallet(st, "w", -100).Success?
            && FundWallet(st, "w", -100).value.1.balance == -50
  {
    var st := Store(map["w" := Wallet("w", "u", 50)], [TxRecord("w", Fund, 50, None)]);
    LogTotalSingle(TxRecord("w", Fund, 50, None), "w");
    assert Consistent(st);
  }

  /** `transferFunds` as written, from a wallet to itself: it succeeds,
      raises the balance by `amount` out of nothing, and appends records that
      net to zero, so the balance no longer matches the log. */
  lemma SelfTransferMintsMoney(st: Store, walletId: WalletId, amount: int)
    requires Consistent(st) && walletId in st.wallets
    requires 0 < amount <= st.wallets[walletId].balance
    ensures var r := TransferFunds(st, walletId, walletId, amount);
            && r.Success?
            && r.value.0.wallets[walletId].balance == st.wallets[walletId].balance + amount
            && !Consistent(r.value.0)
  {
    var r := TransferFunds(st, walletId, walletId, amount);
    LogTotalAppend(st.log, TransferPair(walletId, walletId, amount), walletId);
    LogTotalPair(walletId, walletId, amount, walletId);
    assert r.value.0.wallets[walletId].balance != LogTotal(r.value.0.log, walletId);
  }

  /** The guarded transfer refuses the same request and changes nothing. */
  lemma SelfTransferRejected(st: Store, walletId: WalletId, amount: int)
    requires amount > 0
    ensures TransferFundsGuarded(st, walletId, walletId, amount) == Failure(SelfTransfer)
    ensures TransferFundsGuarded(st, walletId, walletId, amount).error.Message()
            == "Cannot transfer funds from self to self"
  {
  }

  /** Creating a wallet as written stores nothing, whatever the store,
      while the column-mapped insert adds the wallet and keeps a consistent
      store consistent. */
  lemma CreateWalletAsWrittenStoresNothing(st: Store, userId: UserId, walletId: WalletId)
    requires Consistent(st) && walletId !in st.wallets
    ensures CreateWalletForUserAsWritten(st, userId, walletId).Failure?
    ensures var st' := CreateWalletForUser(st, userId, walletId).0;
            walletId in st'.wallets && Consistent(st')
  {
    CreatePreservesConsistent(st, userId, walletId);
  }
}
