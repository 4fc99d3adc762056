/**
 * The transfer engine: TopUp, Spend and Balance of the wallet service,
 * and what they guarantee about the ledger.
 */
module WalletService {
  import opened Wrappers
  import opened Models
  import opened LedgerStore
  import opened WalletUnits
  import opened Repository

  const AlreadyExists := "transaction with id already exist"
  const TopUpSuccessful := "topup successful"
  const SpendSuccessful := "spend successful"
  const TransactionFailed := "transaction failed"

  /** The idempotency probe finds the transaction id already recorded. */
  predicate Recorded(s: StoreState, txnId: Uuid, failing: set<Step>)
  {
    Probe !in failing && txnId in s.txns
  }

  /** The fast path's answer: the balance of the wallet named in the request. */
  function Replay(s: StoreState, walletId: Uuid, failing: set<Step>): (r: Result<WalletResponse, Error>)
    ensures r.Failure? <==> ReadBalance in failing
    ensures r.Failure? ==> r.error == App(ErrBalanceRetrievalFailed)
    ensures r.Success? ==> r.value == WalletResponse(AlreadyExists, BalanceOf(s.entries, walletId))
  {
    if ReadBalance in failing then Failure(App(ErrBalanceRetrievalFailed))
    else Success(WalletResponse(AlreadyExists, BalanceOf(s.entries, walletId)))
  }

  /** The answer after the unit of work: any error becomes a 500 "transaction failed" wrapping it. */
  function Respond(res: UnitResult, message: string): (r: Result<WalletResponse, Error>)
    ensures r.Failure? <==> res.Failed?
    ensures res.Failed? ==> r.error.App? && r.error.app.Unwrap() == res.cause
                            && r.error.app.statusCode == StatusInternalServerError
                            && r.error.app.message == TransactionFailed && r.error.app.Error() == TransactionFailed
    ensures res.Done? ==> r == Success(WalletResponse(message, res.balance))
  {
    match res
    case Failed(e) => Failure(App(NewAppError(e, TransactionFailed, StatusInternalServerError)))
    case Done(_, b) => Success(WalletResponse(message, b))
  }

  /** The store once the unit of work has committed or rolled back. */
  function Settle(res: UnitResult, s: StoreState): StoreState
  {
    if res.Done? then res.after else s
  }

  class WalletService {
    const repo: Repository

    constructor (repo: Repository)
      ensures this.repo == repo
    {
      this.repo := repo;
    }

    /**
     * TopUp: a recorded transaction id writes nothing and reports the
     * balance of the request's wallet; otherwise the top-up unit runs in
     * one database transaction.
     */
    method TopUp(input: WalletServiceParams, failing: set<Step>) returns (r: Result<WalletResponse, Error>)
      modifies repo.queries
      ensures var s := old(repo.queries.State());
              if Recorded(s, input.txnId, failing) then
                repo.queries.State() == s && r == Replay(s, input.walletId, failing)
              else
                var res := Transact(TopUpUnit(input), s, failing);
                repo.queries.State() == Settle(res, s) && r == Respond(res, TopUpSuccessful)
    {
      var query := repo.Queries();
      var probe := query.GetTransactionById(input.txnId, Probe in failing);
      if probe.Success? {
        var read := query.GetBalance(input.walletId, ReadBalance in failing);
        if read.Failure? {
          return Failure(App(ErrBalanceRetrievalFailed));
        }
        return Success(WalletResponse(AlreadyExists, read.value));
      }
      var err, balance := repo.WithTransaction(TopUpUnit(input), failing);
      if err.Some? {
        return Failure(App(NewAppError(err.value, TransactionFailed, StatusInternalServerError)));
      }
      return Success(WalletResponse(TopUpSuccessful, balance));
    }

    /**
     * Spend: a recorded transaction id writes nothing and reports the
     * balance of the request's wallet; otherwise the spend unit runs in
     * one database transaction.
     */
    method Spend(input: WalletServiceParams, failing: set<Step>) returns (r: Result<WalletResponse, Error>)
      modifies repo.queries
      ensures var s := old(repo.queries.State());
              if Recorded(s, input.txnId, failing) then
                repo.queries.State() == s && r == Replay(s, input.walletId, failing)
              else
                var res := Transact(SpendUnit(input), s, failing);
                repo.queries.State() == Settle(res, s) && r == Respond(res, SpendSuccessful)
    {
      var query := repo.Queries();
      var probe := query.GetTransactionById(input.txnId, Probe in failing);
      if probe.Success? {
        var read := query.GetBalance(input.walletId, ReadBalance in failing);
        if read.Failure? {
          return Failure(App(ErrBalanceRetrievalFailed));
        }
        return Success(WalletResponse(AlreadyExists, read.value));
      }
      var err, balance := repo.WithTransaction(SpendUnit(input), failing);
      if err.Some? {
        return Failure(App(NewAppError(err.value, TransactionFailed, StatusInternalServerError)));
      }
      return Success(WalletResponse(SpendSuccessful, balance));
    }

    /** Balance: the ledger sum of `walletId`; `userId` plays no part. */
    function Balance(userId: Uuid, walletId: Uuid, failing: set<Step>): (r: Result<int, Error>)
      reads repo.queries
      ensures r.Failure? <==> ReadBalance in failing
      ensures r.Failure? ==> r.error == App(ErrBalanceRetrievalFailed)
      ensures r.Success? ==> r.value == BalanceOf(repo.queries.entries, walletId)
    {
      var query := repo.Queries();
      var read := query.GetBalance(walletId, ReadBalance in failing);
      if read.Failure? then Failure(App(ErrBalanceRetrievalFailed)) else Success(read.value)
    }
  }

  // ------------------------------------------------------------ properties

  /** An amount the int32 ledger column holds unchanged, on both signs. */
  predicate FitsLedger(amount: int)
  {
    0 < amount <= MaxInt32
  }

  /**
   * A committed top-up adds one TOPUP transaction and exactly two entries
   * under its id, +amount on the user's wallet and -amount on the system
   * wallet, which sum to zero; the reported balance is the old one plus
   * the amount, and no other wallet moves.
   */
  lemma TopUpPostsBalancedPair(s: StoreState, input: WalletServiceParams, failing: set<Step>)
    requires Valid(s) && FitsLedger(input.amount)
    requires Transact(TopUpUnit(input), s, failing).Done?
    ensures input.userId in s.walletOf && s.systemWallet.Some? && input.txnId !in s.txns
    ensures var res := Transact(TopUpUnit(input), s, failing);
            var w, sys := s.walletOf[input.userId], s.systemWallet.value;
            && res.after.txns == s.txns[input.txnId := TOPUP]
            && res.after.walletOf == s.walletOf && res.after.users == s.users
            && res.after.systemWallet == s.systemWallet && res.after.ucAsset == s.ucAsset
            && res.after.entries == s.entries + [Entry(input.txnId, w, input.amount), Entry(input.txnId, sys, -input.amount)]
            && TxnTotal(res.after.entries, input.txnId) == 0
            && res.balance == BalanceOf(s.entries, w) + input.amount
            && BalanceOf(res.after.entries, sys) == BalanceOf(s.entries, sys) - input.amount
            && (forall v :: v != w && v != sys ==> BalanceOf(res.after.entries, v) == BalanceOf(s.entries, v))
  {
    var res := Transact(TopUpUnit(input), s, failing);
    var w, sys := s.walletOf[input.userId], s.systemWallet.value;
    var pair := TransferEntries(TOPUP, input.txnId, w, sys, input.amount);
    assert res.after.entries == s.entries + pair;
    PairEffects(s, input.txnId, w, sys, pair);
  }

  /**
   * A committed spend found a balance at least the amount, adds one SPEND
   * transaction and exactly two entries, -amount on the user's wallet and
   * +amount on the system wallet; the reported balance is the old one
   * minus the amount, and no other wallet moves.
   */
  lemma SpendPostsBalancedPair(s: StoreState, input: WalletServiceParams, failing: set<Step>)
    requires Valid(s) && FitsLedger(input.amount)
    requires Transact(SpendUnit(input), s, failing).Done?
    ensures input.userId in s.walletOf && s.systemWallet.Some? && input.txnId !in s.txns
    ensures BalanceOf(s.entries, s.walletOf[input.userId]) >= input.amount
    ensures var res := Transact(SpendUnit(input), s, failing);
            var w, sys := s.walletOf[input.userId], s.systemWallet.value;
            && res.after.txns == s.txns[input.txnId := SPEND]
            && res.after.walletOf == s.walletOf && res.after.users == s.users
            && res.after.systemWallet == s.systemWallet && res.after.ucAsset == s.ucAsset
            && res.after.entries == s.entries + [Entry(input.txnId, w, -input.amount), Entry(input.txnId, sys, input.amount)]
            && TxnTotal(res.after.entries, input.txnId) == 0
            && res.balance == BalanceOf(s.entries, w) - input.amount
            && BalanceOf(res.after.entries, sys) == BalanceOf(s.entries, sys) + input.amount
            && (forall v :: v != w && v != sys ==> BalanceOf(res.after.entries, v) == BalanceOf(s.entries, v))
  {
    var res := Transact(SpendUnit(input), s, failing);
    var w, sys := s.walletOf[input.userId], s.systemWallet.value;
    var pair := TransferEntries(SPEND, input.txnId, w, sys, input.amount);
    assert res.after.entries == s.entries + pair;
    PairEffects(s, input.txnId, w, sys, pair);
  }

  /** Appending a pair of entries for a new transaction, one on each of two distinct wallets. */
  lemma PairEffects(s: StoreState, txnId: Uuid, w: Uuid, sys: Uuid, pair: seq<Entry>)
    requires Valid(s) && txnId !in s.txns && w != sys
    requires |pair| == 2 && pair[0].txnId == pair[1].txnId == txnId
    requires pair[0].walletId == w && pair[1].walletId == sys
    ensures TxnTotal(s.entries + pair, txnId) == pair[0].amount + pair[1].amount
    ensures BalanceOf(s.entries + pair, w) == BalanceOf(s.entries, w) + pair[0].amount
    ensures BalanceOf(s.entries + pair, sys) == BalanceOf(s.entries, sys) + pair[1].amount
    ensures forall t :: t != txnId ==> TxnTotal(s.entries + pair, t) == TxnTotal(s.entries, t)
    ensures forall v :: v != w && v != sys ==> BalanceOf(s.entries + pair, v) == BalanceOf(s.entries, v)
  {
    TxnTotalUntouched(s.entries, txnId);
    TxnTotalAppend(s.entries, pair, txnId);
    PairTotal(pair, txnId);
    BalanceOfAppend(s.entries, pair, w);
    PairBalance(pair, w);
    BalanceOfAppend(s.entries, pair, sys);
    PairBalance(pair, sys);
    forall t | t != txnId
      ensures TxnTotal(s.entries + pair, t) == TxnTotal(s.entries, t)
    {
      TxnTotalAppend(s.entries, pair, t);
      PairTotal(pair, t);
    }
    forall v | v != w && v != sys
      ensures BalanceOf(s.entries + pair, v) == BalanceOf(s.entries, v)
    {
      BalanceOfAppend(s.entries, pair, v);
      PairBalance(pair, v);
    }
  }

  /**
   * Every committed top-up or spend of an amount the ledger column holds
   * keeps the ledger invariants: entries sum to zero per transfer, and no
   * user wallet goes negative.
   */
  lemma TransferKeepsValid(s: StoreState, fn: UnitOfWork, failing: set<Step>)
    requires Valid(s) && FitsLedger(fn.input.amount)
    requires Transact(fn, s, failing).Done?
    ensures Valid(Transact(fn, s, failing).after)
  {
    var input := fn.input;
    var res := Transact(fn, s, failing);
    var after := res.after;
    var kind := if fn.TopUpUnit? then TOPUP else SPEND;
    if fn.TopUpUnit? {
      TopUpPostsBalancedPair(s, input, failing);
    } else {
      SpendPostsBalancedPair(s, input, failing);
    }
    var w, sys := s.walletOf[input.userId], s.systemWallet.value;
    var pair := TransferEntries(kind, input.txnId, w, sys, input.amount);
    assert after == Posted(s, input.txnId, kind, pair);
    PairEffects(s, input.txnId, w, sys, pair);
    forall k | 0 <= k < |after.entries|
      ensures after.entries[k].txnId in after.txns && KnownWallet(after, after.entries[k].walletId)
    {
      if k >= |s.entries| {
        assert after.entries[k] == pair[k - |s.entries|];
      } else {
        assert after.entries[k] == s.entries[k];
      }
    }
    forall u | u in after.walletOf
      ensures u in UserIds(after) && BalanceOf(after.entries, after.walletOf[u]) >= 0
    {
      assert UserIds(after) == UserIds(s);
    }
  }

  /**
   * A committed spend of any positive amount leaves the user's wallet
   * non-negative, even where the int32 conversion wraps: the check used
   * the int64 amount, and no wrapped debit exceeds 2^31.
   */
  lemma SpendNeverOverdraws(s: StoreState, input: WalletServiceParams, failing: set<Step>)
    requires Valid(s) && input.amount > 0
    requires Transact(SpendUnit(input), s, failing).Done?
    ensures input.userId in s.walletOf
    ensures BalanceOf(Transact(SpendUnit(input), s, failing).after.entries, s.walletOf[input.userId]) >= 0
  {
    var w, sys := s.walletOf[input.userId], s.systemWallet.value;
    var pair := TransferEntries(SPEND, input.txnId, w, sys, input.amount);
    PairEffects(s, input.txnId, w, sys, pair);
    assert BalanceOf(s.entries, w) >= input.amount;
  }

  /**
   * A spend larger than the balance of the locked wallet is refused with
   * ErrInsufficientBalance before anything is written; the caller sees it
   * wrapped in a 500 "transaction failed" and the store is unchanged.
   */
  lemma SpendRefusesOverdraft(s: StoreState, input: WalletServiceParams, failing: set<Step>)
    requires Begin !in failing && Lock !in failing && ReadFunds !in failing
    requires input.userId in s.walletOf && BalanceOf(s.entries, s.walletOf[input.userId]) < input.amount
    ensures Transact(SpendUnit(input), s, failing) == Failed(App(ErrInsufficientBalance))
    ensures Settle(Transact(SpendUnit(input), s, failing), s) == s
    ensures var r := Respond(Transact(SpendUnit(input), s, failing), SpendSuccessful);
            r.Failure? && AsAppError(r.error).Some? && AsAppError(r.error).value.statusCode == 500
            && AsAppError(r.error).value.Unwrap() == App(ErrInsufficientBalance)
  {
  }

  /**
   * A spend of exactly the balance passes the int64 funds check whatever the
   * amount, and it leaves the wallet at zero as long as the written entry is
   * -amount, which holds up to 2^31: there `int32(2^31)` and its negation
   * both wrap to -2^31.
   */
  lemma SpendAcceptsWholeBalance(s: StoreState, input: WalletServiceParams)
    requires Valid(s)
    requires input.userId in s.walletOf && input.txnId !in s.txns && s.systemWallet.Some?
    requires BalanceOf(s.entries, s.walletOf[input.userId]) == input.amount
    ensures Transact(SpendUnit(input), s, {}).Done?
    ensures 0 < input.amount <= 0x8000_0000 ==> Transact(SpendUnit(input), s, {}).balance == 0
  {
    var w, sys := s.walletOf[input.userId], s.systemWallet.value;
    var pair := TransferEntries(SPEND, input.txnId, w, sys, input.amount);
    assert Transact(SpendUnit(input), s, {}).Done?;
    if 0 < input.amount <= 0x8000_0000 {
      PairEffects(s, input.txnId, w, sys, pair);
      assert pair[0].amount == -input.amount by {
        if input.amount == 0x8000_0000 {
          assert Int32(input.amount) == MinInt32;
          assert Negate32(MinInt32) == MinInt32;
        }
      }
    }
  }

  /**
   * After a committed transfer the id is recorded, so a retry takes the
   * fast path; when the request names the user's own wallet the retry
   * reports the same balance as the first call.
   */
  lemma RetryReplaysBalance(s: StoreState, fn: UnitOfWork, failing: set<Step>)
    requires Transact(fn, s, failing).Done?
    ensures var after := Transact(fn, s, failing).after;
            Recorded(after, fn.input.txnId, {})
    ensures fn.input.userId in s.walletOf
    ensures s.walletOf[fn.input.userId] == fn.input.walletId ==>
              var res := Transact(fn, s, failing);
              Replay(res.after, fn.input.walletId, {}) == Success(WalletResponse(AlreadyExists, res.balance))
  {
  }

  // --------------------------------------------- the int32 amount conversion

  /** A valid store: user 5 ("alice") holds wallet 10 with a bonus of 100; 20 is the system wallet. */
  function Alice(): StoreState
  {
    StoreState([Entry(1, 10, 100)], map[1 := BONUS], map[5 := 10], Some(20),
               map["alice" := UserRow(5, "hash")], Some(30))
  }

  lemma AliceValid()
    ensures Valid(Alice())
  {
    var s := Alice();
    assert UserIds(s) == {5} by {
      assert s.users["alice"].id == 5;
    }
    assert s.walletOf.Values == {10} by {
      assert s.walletOf[5] == 10;
    }
    assert BalanceOf(s.entries, 10) == 100 + BalanceOf([], 10);
  }

  /** A top-up for alice under the new id 2, with no failing statement, commits the pair as written. */
  lemma AliceTopUp(amount: Int64, e0: int, e1: int)
    requires Int32(amount) == e0 && Negate32(Int32(amount)) == e1
    ensures var res := Transact(TopUpUnit(WalletServiceParams(2, amount, 5, 10)), Alice(), {});
            && res.Done?
            && res.after.walletOf == Alice().walletOf
            && BalanceOf(res.after.entries, 10) == 100 + e0
            && res.balance == 100 + e0
            && TxnTotal(res.after.entries, 2) == e0 + e1
  {
    var s := Alice();
    var res := Transact(TopUpUnit(WalletServiceParams(2, amount, 5, 10)), s, {});
    var pair := [Entry(2, 10, e0), Entry(2, 20, e1)];
    assert res.after.entries == s.entries + pair;
    assert BalanceOf(s.entries, 10) == 100 + BalanceOf([], 10);
    BalanceOfAppend(s.entries, pair, 10);
    PairBalance(pair, 10);
    assert TxnTotal(s.entries, 2) == 0 + TxnTotal([], 2);
    TxnTotalAppend(s.entries, pair, 2);
    PairTotal(pair, 2);
  }

  /**
   * As written, a top-up of 2^31 (a valid int64 above zero) stores
   * int32(2^31) = -2^31 on the user's wallet and -int32(2^31) = -2^31 on
   * the system wallet: the pair sums to -2^32 and a user holding 100 ends
   * at 100 - 2^31.
   */
  lemma TopUpOverflowCounterexample()
    ensures var res := Transact(TopUpUnit(WalletServiceParams(2, 0x8000_0000, 5, 10)), Alice(), {});
            && Valid(Alice())
            && res.Done?
            && res.balance == 100 - 0x8000_0000 < 0
            && TxnTotal(res.after.entries, 2) == -0x1_0000_0000
            && !Valid(res.after)
  {
    AliceValid();
    assert Int32(0x8000_0000) == -0x8000_0000;
    assert Negate32(-0x8000_0000) == -0x8000_0000;
    AliceTopUp(0x8000_0000, -0x8000_0000, -0x8000_0000);
  }

  /**
   * As written, a top-up of 2^31 + 1 stores int32(2^31 + 1) = -(2^31 - 1)
   * on the user's wallet and 2^31 - 1 on the system wallet: the pair sums
   * to zero, but the "top-up" debits the user, whose 100 ends at
   * 100 - (2^31 - 1), below zero.
   */
  lemma TopUpWrapDebitsCounterexample()
    ensures var res := Transact(TopUpUnit(WalletServiceParams(2, 0x8000_0001, 5, 10)), Alice(), {});
            && Valid(Alice())
            && res.Done?
            && res.balance == 100 - 0x7FFF_FFFF < 0
            && TxnTotal(res.after.entries, 2) == 0
            && !Valid(res.after)
  {
    AliceValid();
    assert Int32(0x8000_0001) == -0x7FFF_FFFF;
    assert Negate32(-0x7FFF_FFFF) == 0x7FFF_FFFF;
    AliceTopUp(0x8000_0001, -0x7FFF_FFFF, 0x7FFF_FFFF);
  }

  /**
   * A valid store where user 5 holds 2^31 on wallet 10, credited by two
   * BONUS entries of 2^30 (each fits the int32 column); 20 is the system wallet.
   */
  function Rich(): StoreState
  {
    StoreState([Entry(1, 10, 0x4000_0000), Entry(3, 10, 0x4000_0000)], map[1 := BONUS, 3 := BONUS],
               map[5 := 10], Some(20), map["bob" := UserRow(5, "hash")], Some(30))
  }

  lemma RichValid()
    ensures Valid(Rich())
    ensures BalanceOf(Rich().entries, 10) == 0x8000_0000
  {
    var s := Rich();
    assert UserIds(s) == {5} by {
      assert s.users["bob"].id == 5;
    }
    assert s.walletOf.Values == {10} by {
      assert s.walletOf[5] == 10;
    }
    PairBalance(s.entries, 10);
  }

  /** A spend by bob under the new id 2, with no failing statement, commits the pair as written. */
  lemma RichSpend(amount: Int64, e0: int, e1: int)
    requires 0 < amount <= 0x8000_0000
    requires Negate32(Int32(amount)) == e0 && Int32(amount) == e1
    ensures var res := Transact(SpendUnit(WalletServiceParams(2, amount, 5, 10)), Rich(), {});
            && res.Done?
            && res.after.txns[2] == SPEND
            && res.balance == 0x8000_0000 + e0
            && TxnTotal(res.after.entries, 2) == e0 + e1
  {
    var s := Rich();
    RichValid();
    var res := Transact(SpendUnit(WalletServiceParams(2, amount, 5, 10)), s, {});
    var pair := [Entry(2, 10, e0), Entry(2, 20, e1)];
    assert res.after.entries == s.entries + pair;
    BalanceOfAppend(s.entries, pair, 10);
    PairBalance(pair, 10);
    PairTotal(s.entries, 2);
    TxnTotalAppend(s.entries, pair, 2);
    PairTotal(pair, 2);
  }

  /**
   * As written, a spend of 2^31 by a user holding exactly 2^31 passes the
   * int64 balance check, then stores -int32(2^31) = -2^31 on the user's
   * wallet and int32(2^31) = -2^31 on the system wallet: the SPEND
   * transaction totals -2^32 and the system wallet is debited, not credited.
   */
  lemma SpendOverflowCounterexample()
    ensures var res := Transact(SpendUnit(WalletServiceParams(2, 0x8000_0000, 5, 10)), Rich(), {});
            && Valid(Rich())
            && res.Done?
            && res.balance == 0
            && TxnTotal(res.after.entries, 2) == -0x1_0000_0000
            && !Valid(res.after)
  {
    RichValid();
    assert Int32(0x8000_0000) == -0x8000_0000;
    assert Negate32(-0x8000_0000) == -0x8000_0000;
    RichSpend(0x8000_0000, -0x8000_0000, -0x8000_0000);
  }

  /**
   * The conversion the ledger evidently needs: the pair for an amount the
   * int32 column holds on both signs, and nothing otherwise.
   */
  function CheckedTransferEntries(kind: TxnType, txnId: Uuid, userWallet: Uuid, systemWallet: Uuid, amount: int): (r: Option<seq<Entry>>)
    requires kind != BONUS
    ensures r.Some? <==> MinInt32 < amount <= MaxInt32
    ensures r.Some? ==> var sign := if kind == TOPUP then 1 else -1;
                        r.value == [Entry(txnId, userWallet, sign * amount), Entry(txnId, systemWallet, -sign * amount)]
    ensures r.Some? ==> userWallet != systemWallet ==>
              && TxnTotal(r.value, txnId) == 0
              && BalanceOf(r.value, userWallet) == (if kind == TOPUP then amount else -amount)
  {
    if MinInt32 < amount <= MaxInt32 then
      var es := TransferEntries(kind, txnId, userWallet, systemWallet, amount);
      assert Int32(-amount) == -amount;
      PairTotal(es, txnId);
      PairBalance(es, userWallet);
      Some(es)
    else None
  }
}
