/**
 * The units of work of a top-up and a spend: the two closures that
 * walletService.TopUp and walletService.Spend hand to WithTransaction.
 *
 * A Dafny method cannot be passed as a value, so each closure is named by
 * a UnitOfWork value and run by RunUnit against the transactional handle.
 * TopUpSpec and SpendSpec say what a unit leaves behind when it gets
 * to its end (`Done`) and which error stops it otherwise (`Failed`); a
 * failed unit may leave partial writes, which WithTransaction discards.
 */
module WalletUnits {
  import opened Wrappers
  import opened Models
  import opened LedgerStore

  datatype UnitOfWork =
    | TopUpUnit(input: WalletServiceParams)
    | SpendUnit(input: WalletServiceParams)

  datatype UnitResult =
    | Failed(cause: Error)
    | Done(after: StoreState, balance: int)

  /** `-x` on an int32: the negation wraps as well (-(-2^31) is -2^31). */
  function Negate32(x: Int32Value): Int32Value
  {
    Int32(-(x as int))
  }

  /**
   * The pair of entries a transfer writes, with the amounts as the source
   * computes them, `int32(input.Amount)` and `-int32(input.Amount)`: a
   * TOPUP credits the user wallet and debits the system wallet, a SPEND
   * does the opposite.
   */
  function TransferEntries(kind: TxnType, txnId: Uuid, userWallet: Uuid, systemWallet: Uuid, amount: int): (es: seq<Entry>)
    requires kind != BONUS
    ensures |es| == 2 && es[0].txnId == es[1].txnId == txnId
    ensures es[0].walletId == userWallet && es[1].walletId == systemWallet
    ensures MinInt32 <= es[0].amount <= MaxInt32 && MinInt32 <= es[1].amount <= MaxInt32
    ensures 0 < amount <= MaxInt32 ==>
              es[0].amount + es[1].amount == 0 && es[0].amount == (if kind == TOPUP then amount else -amount)
  {
    var credit := Int32(amount);
    var debit := Negate32(credit);
    if kind == TOPUP then [Entry(txnId, userWallet, credit), Entry(txnId, systemWallet, debit)]
    else [Entry(txnId, userWallet, debit), Entry(txnId, systemWallet, credit)]
  }

  /** The store after a transaction row and its entries were written. */
  function Posted(s: StoreState, txnId: Uuid, kind: TxnType, es: seq<Entry>): StoreState
  {
    s.(txns := s.txns[txnId := kind], entries := s.entries + es)
  }

  /** The top-up closure: lock, insert the TOPUP row, credit the user, debit the system, read back. */
  function TopUpSpec(s: StoreState, input: WalletServiceParams, failing: set<Step>): UnitResult
  {
    if Lock in failing then Failed(Outage)
    else if input.userId !in s.walletOf then Failed(Driver(NoRows))
    else if InsertTxn in failing then Failed(Outage)
    else if input.txnId in s.txns then Failed(Driver(UniqueViolation))
    else if InsertUserEntry in failing || FindSystem in failing then Failed(Outage)
    else if s.systemWallet.None? then Failed(Driver(NoRows))
    else if InsertSystemEntry in failing || ReadBack in failing then Failed(Outage)
    else
      var wallet := s.walletOf[input.userId];
      var after := Posted(s, input.txnId, TOPUP,
                          TransferEntries(TOPUP, input.txnId, wallet, s.systemWallet.value, input.amount));
      Done(after, BalanceOf(after.entries, wallet))
  }

  /**
   * The spend closure: lock, read the balance and refuse a spend larger
   * than it, insert the SPEND row, debit the user, credit the system,
   * read back.
   */
  function SpendSpec(s: StoreState, input: WalletServiceParams, failing: set<Step>): UnitResult
  {
    if Lock in failing then Failed(Outage)
    else if input.userId !in s.walletOf then Failed(Driver(NoRows))
    else if ReadFunds in failing then Failed(Outage)
    else if BalanceOf(s.entries, s.walletOf[input.userId]) < input.amount then Failed(App(ErrInsufficientBalance))
    else if InsertTxn in failing then Failed(Outage)
    else if input.txnId in s.txns then Failed(Driver(UniqueViolation))
    else if InsertUserEntry in failing || FindSystem in failing then Failed(Outage)
    else if s.systemWallet.None? then Failed(Driver(NoRows))
    else if InsertSystemEntry in failing || ReadBack in failing then Failed(Outage)
    else
      var wallet := s.walletOf[input.userId];
      var after := Posted(s, input.txnId, SPEND,
                          TransferEntries(SPEND, input.txnId, wallet, s.systemWallet.value, input.amount));
      Done(after, BalanceOf(after.entries, wallet))
  }

  function UnitSpec(fn: UnitOfWork, s: StoreState, failing: set<Step>): UnitResult
  {
    match fn
    case TopUpUnit(input) => TopUpSpec(s, input, failing)
    case SpendUnit(input) => SpendSpec(s, input, failing)
  }

  /** The body of the top-up closure, run against the handle `q`. */
  method RunTopUp(q: Queries, input: WalletServiceParams, failing: set<Step>) returns (err: Option<Error>, balance: int)
    modifies q
    ensures var res := TopUpSpec(old(q.State()), input, failing);
            && (res.Failed? ==> err == Some(res.cause))
            && (res.Done? ==> err == None && q.State() == res.after && balance == res.balance)
  {
    var lock := q.LockWallet(input.userId, Lock in failing);
    if lock.Failure? {
      return Some(lock.error), 0;
    }
    var walletId := lock.value;
    var txn := q.CreateTxn(input.txnId, TOPUP, InsertTxn in failing);
    if txn.Failure? {
      return Some(txn.error), 0;
    }
    var credit := Int32(input.amount);
    err := q.CreateLedger(txn.value, walletId, credit, InsertUserEntry in failing);
    if err.Some? {
      return err, 0;
    }
    var systemWalletId := q.GetSystemWallet(FindSystem in failing);
    if systemWalletId.Failure? {
      return Some(systemWalletId.error), 0;
    }
    err := q.CreateLedger(txn.value, systemWalletId.value, Negate32(credit), InsertSystemEntry in failing);
    if err.Some? {
      return err, 0;
    }
    var read := q.GetBalance(walletId, ReadBack in failing);
    if read.Failure? {
      return Some(read.error), 0;
    }
    ghost var s := old(q.State());
    assert q.entries == s.entries + TransferEntries(TOPUP, input.txnId, walletId, systemWalletId.value, input.amount);
    return None, read.value;
  }

  /** The body of the spend closure, run against the handle `q`. */
  method RunSpend(q: Queries, input: WalletServiceParams, failing: set<Step>) returns (err: Option<Error>, balance: int)
    modifies q
    ensures var res := SpendSpec(old(q.State()), input, failing);
            && (res.Failed? ==> err == Some(res.cause))
            && (res.Done? ==> err == None && q.State() == res.after && balance == res.balance)
  {
    var lock := q.LockWallet(input.userId, Lock in failing);
    if lock.Failure? {
      return Some(lock.error), 0;
    }
    var walletId := lock.value;
    var funds := q.GetBalance(walletId, ReadFunds in failing);
    if funds.Failure? {
      return Some(funds.error), 0;
    }
    if funds.value < input.amount {
      return Some(App(ErrInsufficientBalance)), 0;
    }
    var txn := q.CreateTxn(input.txnId, SPEND, InsertTxn in failing);
    if txn.Failure? {
      return Some(txn.error), 0;
    }
    var credit := Int32(input.amount);
    err := q.CreateLedger(txn.value, walletId, Negate32(credit), InsertUserEntry in failing);
    if err.Some? {
      return err, 0;
    }
    var systemWalletId := q.GetSystemWallet(FindSystem in failing);
    if systemWalletId.Failure? {
      return Some(systemWalletId.error), 0;
    }
    err := q.CreateLedger(txn.value, systemWalletId.value, credit, InsertSystemEntry in failing);
    if err.Some? {
      return err, 0;
    }
    var read := q.GetBalance(walletId, ReadBack in failing);
    if read.Failure? {
      return Some(read.error), 0;
    }
    ghost var s := old(q.State());
    assert q.entries == s.entries + TransferEntries(SPEND, input.txnId, walletId, systemWalletId.value, input.amount);
    return None, read.value;
  }

  /** Calls the closure a UnitOfWork names. */
  method RunUnit(fn: UnitOfWork, q: Queries, failing: set<Step>) returns (err: Option<Error>, balance: int)
    modifies q
    ensures var res := UnitSpec(fn, old(q.State()), failing);
            && (res.Failed? ==> err == Some(res.cause))
            && (res.Done? ==> err == None && q.State() == res.after && balance == res.balance)
  {
    match fn
    case TopUpUnit(input) =>
      err, balance := RunTopUp(q, input, failing);
    case SpendUnit(input) =>
      err, balance := RunSpend(q, input, failing);
  }
}
