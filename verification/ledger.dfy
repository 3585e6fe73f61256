/** The wallet ledger: wallets, the append-only transaction log, and the four
    service operations that change them. Creating a wallet is a single insert;
    funding, withdrawing and transferring each run as one database
    transaction. Each operation is modelled as one function from the store
    before to the store after, and a thrown error (`Failure`) carries no
    store: the transaction rolls back and the store is the one the caller
    already has.
    Money is an integer number of cents (the columns are `decimal(14,2)`). */
module Ledger {
  import opened Wrappers

  type WalletId = string
  type UserId = string

  /** A `wallets` row (timestamps left out). */
  datatype Wallet = Wallet(id: WalletId, userId: UserId, balance: int)

  /** `TransactionType`. */
  datatype TransactionType = Fund | Transfer | Withdraw

  /** A `transactions` row (its own id and timestamps left out): signed
      amount, positive for a credit, and `target_wallet_id`. */
  datatype TxRecord = TxRecord(walletId: WalletId, kind: TransactionType, amount: int, target: Option<WalletId>)

  /** The two tables: wallets by primary key, transactions in insertion order. */
  datatype Store = Store(wallets: map<WalletId, Wallet>, log: seq<TxRecord>)

  /** The errors the service throws, one constructor per message, together
      with the two that only the guarded variants below throw
      (`FundAmountNotPositive` and `SelfTransfer`). */
  datatype LedgerError =
    | WalletNotFound
    | SenderNotFound
    | ReceiverNotFound
    | InsufficientFunds
    | FundAmountNotPositive
    | TransferAmountNotPositive
    | WithdrawalAmountNotPositive
    | SelfTransfer
  {
    function Message(): string {
      match this
      case WalletNotFound => "Wallet not found"
      case SenderNotFound => "Sender wallet not found"
      case ReceiverNotFound => "Receiver wallet not found"
      case InsufficientFunds => "Insufficient funds"
      case FundAmountNotPositive => "Fund amount must be greater than zero"
      case TransferAmountNotPositive => "Transfer amount must be greater than zero"
      case WithdrawalAmountNotPositive => "Withdrawal amount must be greater than zero"
      case SelfTransfer => "Cannot transfer funds from self to self"
    }
  }

  /** The object `transferFunds` resolves to. */
  datatype TransferReceipt = TransferReceipt(message: string, amount: int, senderWalletId: WalletId, receiverWalletId: WalletId)

  /** The object `withdrawFunds` resolves to. */
  datatype WithdrawalReceipt = WithdrawalReceipt(message: string, walletId: WalletId, amount: int)

  /** Every wallet outside `touched` is kept as it was, and no wallet is
      added or removed. */
  ghost predicate OthersUnchanged(before: map<WalletId, Wallet>, after: map<WalletId, Wallet>, touched: set<WalletId>) {
    && after.Keys == before.Keys
    && forall id :: id in before && id !in touched ==> after[id] == before[id]
  }

  /** Wallet `id` differs from its earlier row only in a balance moved by `delta`. */
  ghost predicate MovedBy(before: map<WalletId, Wallet>, after: map<WalletId, Wallet>, id: WalletId, delta: int) {
    id in before && id in after && after[id] == before[id].(balance := before[id].balance + delta)
  }

  /** The row with a new balance. */
  function WithBalance(w: Wallet, balance: int): Wallet {
    w.(balance := balance)
  }

  // ---------------------------------------------------------------------
  // createWalletForUser
  // ---------------------------------------------------------------------

  /** The columns of the `wallets` table, and the one an insert must supply
      (`user_id` is NOT NULL without a default). */
  const WalletColumns: set<string> := {"id", "user_id", "balance", "created_at", "updated_at"}
  const WalletRequiredColumns: set<string> := {"user_id"}

  /** The own properties of a `new Wallet(...)` object: `id`, `createdAt`
      and `updatedAt` from the base model, `userId` and `balance` from the
      wallet model. Knex names one column per property, verbatim. */
  const WalletObjectKeys: set<string> := {"id", "createdAt", "updatedAt", "userId", "balance"}

  /** The properties of a row object that maps each field to its column, as
      the user service does for `users`. */
  const WalletRowKeys: set<string> := {"id", "user_id", "balance", "created_at", "updated_at"}

  /** Why the database refuses an insert into `wallets`. */
  datatype InsertError =
    | UnknownColumns(names: set<string>)
    | MissingColumns(names: set<string>)
    | DuplicateKey(id: WalletId)

  /** `knex('wallets').insert(obj)` for an object with properties `keys`
      describing wallet `w`: refused when a property names no column, when a
      required column is not supplied, or when the id is taken. */
  function InsertWallet(st: Store, keys: set<string>, w: Wallet): (r: Result<Store, InsertError>)
    ensures r.Success? <==> keys <= WalletColumns && WalletRequiredColumns <= keys && w.id !in st.wallets
    ensures !(keys <= WalletColumns) ==> r == Failure(UnknownColumns(keys - WalletColumns))
    ensures keys <= WalletColumns && !(WalletRequiredColumns <= keys)
            ==> r == Failure(MissingColumns(WalletRequiredColumns - keys))
    ensures r.Success? ==> r.value.wallets == st.wallets[w.id := w] && r.value.log == st.log
  {
    if !(keys <= WalletColumns) then Failure(UnknownColumns(keys - WalletColumns))
    else if !(WalletRequiredColumns <= keys) then Failure(MissingColumns(WalletRequiredColumns - keys))
    else if w.id in st.wallets then Failure(DuplicateKey(w.id))
    else Success(Store(st.wallets[w.id := w], st.log))
  }

  /** `createWalletForUser(userId)` as written: it inserts the model object
      itself, whose `userId`, `createdAt` and `updatedAt` properties name no
      column of `wallets`, so every call is refused and nothing is stored. */
  function CreateWalletForUserAsWritten(st: Store, userId: UserId, walletId: WalletId): (r: Result<(Store, Wallet), InsertError>)
    ensures r == Failure(UnknownColumns({"createdAt", "updatedAt", "userId"}))
  {
    var w := Wallet(walletId, userId, 0);
    assert "userId" in WalletObjectKeys - WalletColumns;
    match InsertWallet(st, WalletObjectKeys, w)
    case Failure(e) =>
      assert WalletObjectKeys - WalletColumns == {"createdAt", "updatedAt", "userId"};
      Failure(e)
    case Success(st') => Success((st', w))
  }

  /** `createWalletForUser(userId)` with each field mapped to its column:
      inserts a zero-balance wallet under the identifier `walletId` the
      service draws (a v4 UUID, so not yet in use). */
  function CreateWalletForUser(st: Store, userId: UserId, walletId: WalletId): (r: (Store, Wallet))
    requires walletId !in st.wallets
    ensures r.1 == Wallet(walletId, userId, 0)
    ensures r.0.wallets.Keys == st.wallets.Keys + {walletId}
    ensures r.0.wallets[walletId] == r.1
    ensures forall id :: id in st.wallets ==> r.0.wallets[id] == st.wallets[id]
    ensures r.0.log == st.log
  {
    var w := Wallet(walletId, userId, 0);
    assert WalletRowKeys <= WalletColumns && "user_id" in WalletRowKeys;
    var inserted := InsertWallet(st, WalletRowKeys, w);
    (inserted.value, w)
  }

  // ---------------------------------------------------------------------
  // fundWallet
  // ---------------------------------------------------------------------

  /** `fundWallet(walletId, amount)` as written: no check on `amount`. The
      reply is the wallet row read back after the commit. */
  function FundWallet(st: Store, walletId: WalletId, amount: int): (r: Result<(Store, Wallet), LedgerError>)
    ensures r.Failure? <==> walletId !in st.wallets
    ensures r.Failure? ==> r.error == WalletNotFound
    ensures r.Success? ==>
              && MovedBy(st.wallets, r.value.0.wallets, walletId, amount)
              && OthersUnchanged(st.wallets, r.value.0.wallets, {walletId})
              && r.value.0.log == st.log + [TxRecord(walletId, Fund, amount, None)]
              && r.value.1 == r.value.0.wallets[walletId]
  {
    if walletId !in st.wallets then Failure(WalletNotFound)
    else
      var w := st.wallets[walletId];
      var updated := WithBalance(w, w.balance + amount);
      var st' := Store(st.wallets[walletId := updated], st.log + [TxRecord(walletId, Fund, amount, None)]);
      Success((st', updated))
  }

  /** `fundWallet` with the amount guard its edge-case tests expect: a
      non-positive amount is rejected before the wallet is looked up. */
  function FundWalletGuarded(st: Store, walletId: WalletId, amount: int): (r: Result<(Store, Wallet), LedgerError>)
    ensures amount <= 0 ==> r == Failure(FundAmountNotPositive)
    ensures amount > 0 && walletId !in st.wallets ==> r == Failure(WalletNotFound)
    ensures r.Success? <==> amount > 0 && walletId in st.wallets
    ensures r.Success? ==>
              && MovedBy(st.wallets, r.value.0.wallets, walletId, amount)
              && OthersUnchanged(st.wallets, r.value.0.wallets, {walletId})
              && r.value.0.log == st.log + [TxRecord(walletId, Fund, amount, None)]
              && r.value.1 == r.value.0.wallets[walletId]
              && r.value.1.balance > st.wallets[walletId].balance
  {
    if amount <= 0 then Failure(FundAmountNotPositive)
    else FundWallet(st, walletId, amount)
  }

  // ---------------------------------------------------------------------
  // withdrawFunds
  // ---------------------------------------------------------------------

  /** `withdrawFunds(walletId, amount)`: amount check, then lookup, then the
      balance check, then the debit and one WITHDRAW record. */
  function WithdrawFunds(st: Store, walletId: WalletId, amount: int): (r: Result<(Store, WithdrawalReceipt), LedgerError>)
    ensures amount <= 0 ==> r == Failure(WithdrawalAmountNotPositive)
    ensures amount > 0 && walletId !in st.wallets ==> r == Failure(WalletNotFound)
    ensures (amount > 0 && walletId in st.wallets && st.wallets[walletId].balance < amount)
            ==> r == Failure(InsufficientFunds)
    ensures r.Success? <==> 0 < amount && walletId in st.wallets && amount <= st.wallets[walletId].balance
    ensures r.Success? ==>
              && MovedBy(st.wallets, r.value.0.wallets, walletId, -amount)
              && OthersUnchanged(st.wallets, r.value.0.wallets, {walletId})
              && r.value.0.log == st.log + [TxRecord(walletId, Withdraw, -amount, None)]
              && r.value.1 == WithdrawalReceipt("Withdrawal successful", walletId, amount)
    ensures r.Success? ==> forall id :: id in st.wallets && st.wallets[id].balance >= 0
                                        ==> r.value.0.wallets[id].balance >= 0
  {
    if amount <= 0 then Failure(WithdrawalAmountNotPositive)
    else if walletId !in st.wallets then Failure(WalletNotFound)
    else
      var w := st.wallets[walletId];
      if w.balance < amount then Failure(InsufficientFunds)
      else
        var st' := Store(st.wallets[walletId := WithBalance(w, w.balance - amount)],
                         st.log + [TxRecord(walletId, Withdraw, -amount, None)]);
        Success((st', WithdrawalReceipt("Withdrawal successful", walletId, amount)))
  }

  // ---------------------------------------------------------------------
  // transferFunds
  // ---------------------------------------------------------------------

  /** The debit and credit records a transfer appends, sender first. */
  function TransferPair(sender: WalletId, receiver: WalletId, amount: int): (p: seq<TxRecord>)
    ensures |p| == 2 && p[0].amount + p[1].amount == 0
    ensures p[0].kind == Transfer && p[1].kind == Transfer
    ensures p[0].target == Some(p[1].walletId) && p[1].target == Some(p[0].walletId)
  {
    [TxRecord(sender, Transfer, -amount, Some(receiver)), TxRecord(receiver, Transfer, amount, Some(sender))]
  }

  /** `transferFunds(sender, receiver, amount)` as written. Both rows are
      read before either is written, and each new balance is computed from
      its row as read; with `sender == receiver` the second write therefore
      overwrites the first with `balance + amount`. */
  function TransferFunds(st: Store, sender: WalletId, receiver: WalletId, amount: int): (r: Result<(Store, TransferReceipt), LedgerError>)
    ensures amount <= 0 ==> r == Failure(TransferAmountNotPositive)
    ensures amount > 0 && sender !in st.wallets ==> r == Failure(SenderNotFound)
    ensures amount > 0 && sender in st.wallets && receiver !in st.wallets ==> r == Failure(ReceiverNotFound)
    ensures (amount > 0 && sender in st.wallets && receiver in st.wallets
             && st.wallets[sender].balance < amount) ==> r == Failure(InsufficientFunds)
    ensures r.Success? <==> 0 < amount && sender in st.wallets && receiver in st.wallets
                            && amount <= st.wallets[sender].balance
    ensures r.Success? ==>
              && OthersUnchanged(st.wallets, r.value.0.wallets, {sender, receiver})
              && r.value.0.log == st.log + TransferPair(sender, receiver, amount)
              && r.value.1 == TransferReceipt("Transfer successful", amount, sender, receiver)
    ensures r.Success? && sender != receiver ==>
              && MovedBy(st.wallets, r.value.0.wallets, sender, -amount)
              && MovedBy(st.wallets, r.value.0.wallets, receiver, amount)
    ensures r.Success? && sender == receiver ==> MovedBy(st.wallets, r.value.0.wallets, sender, amount)
    ensures r.Success? ==> forall id :: id in st.wallets && st.wallets[id].balance >= 0
                                        ==> r.value.0.wallets[id].balance >= 0
  {
    if amount <= 0 then Failure(TransferAmountNotPositive)
    else if sender !in st.wallets then Failure(SenderNotFound)
    else if receiver !in st.wallets then Failure(ReceiverNotFound)
    else
      var senderRow := st.wallets[sender];
      var receiverRow := st.wallets[receiver];
      if senderRow.balance < amount then Failure(InsufficientFunds)
      else
        var debited := st.wallets[sender := WithBalance(senderRow, senderRow.balance - amount)];
        var credited := debited[receiver := WithBalance(receiverRow, receiverRow.balance + amount)];
        var st' := Store(credited, st.log + TransferPair(sender, receiver, amount));
        Success((st', TransferReceipt("Transfer successful", amount, sender, receiver)))
  }

  /** `transferFunds` with the self-transfer guard its edge-case tests
      expect, checked after the amount and before any lookup. */
  function TransferFundsGuarded(st: Store, sender: WalletId, receiver: WalletId, amount: int): (r: Result<(Store, TransferReceipt), LedgerError>)
    ensures amount <= 0 ==> r == Failure(TransferAmountNotPositive)
    ensures amount > 0 && sender == receiver ==> r == Failure(SelfTransfer)
    ensures amount > 0 && sender != receiver && sender !in st.wallets ==> r == Failure(SenderNotFound)
    ensures (amount > 0 && sender != receiver && sender in st.wallets && receiver !in st.wallets)
            ==> r == Failure(ReceiverNotFound)
    ensures (amount > 0 && sender != receiver && sender in st.wallets && receiver in st.wallets
             && st.wallets[sender].balance < amount) ==> r == Failure(InsufficientFunds)
    ensures r.Success? <==> 0 < amount && sender != receiver && sender in st.wallets
                            && receiver in st.wallets && amount <= st.wallets[sender].balance
    ensures r.Success? ==>
              && MovedBy(st.wallets, r.value.0.wallets, sender, -amount)
              && MovedBy(st.wallets, r.value.0.wallets, receiver, amount)
              && OthersUnchanged(st.wallets, r.value.0.wallets, {sender, receiver})
              && r.value.0.wallets[sender].balance + r.value.0.wallets[receiver].balance
                 == st.wallets[sender].balance + st.wallets[receiver].balance
              && r.value.0.log == st.log + TransferPair(sender, receiver, amount)
              && r.value.1 == TransferReceipt("Transfer successful", amount, sender, receiver)
  {
    if amount <= 0 then Failure(TransferAmountNotPositive)
    else if sender == receiver then Failure(SelfTransfer)
    else TransferFunds(st, sender, receiver, amount)
  }
}
