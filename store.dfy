/**
 * The ledger store: wallets, transactions and ledger entries, and the
 * queries the services run against them.
 *
 * The SQL behind the queries is not part of this model; each query is
 * given the meaning the services rely on: a balance is the sum of the
 * wallet's entries, LockWallet finds the wallet its owner holds, and an
 * insert fails on a duplicate key. Every query takes `down`, which says
 * whether the database reports an error for that statement.
 */
module LedgerStore {
  import opened Wrappers
  import opened Models

  const MaxInt32 := 0x7fff_ffff
  const MinInt32 := -0x8000_0000

  /** Go's int32, the type of the ledger amount column. */
  type Int32Value = x: int | -0x8000_0000 <= x <= 0x7fff_ffff

  /** Go's int32(x) conversion: keep the low 32 bits, read as two's complement. */
  function Int32(x: int): (r: Int32Value)
    ensures (x - r) % 0x1_0000_0000 == 0
    ensures MinInt32 <= x <= MaxInt32 ==> r == x
  {
    var m := x % 0x1_0000_0000;
    if m > MaxInt32 then m - 0x1_0000_0000 else m
  }

  datatype TxnType = TOPUP | SPEND | BONUS

  /** One ledger_entries row: a signed amount against one wallet, owned by one transaction. */
  datatype Entry = Entry(txnId: Uuid, walletId: Uuid, amount: int)

  /** One users row; the table is keyed by the unique username. */
  datatype UserRow = UserRow(id: Uuid, passwordHash: string)

  /**
   * The whole store as a value: the ledger, the transaction types by id,
   * the wallet each user owns, the system wallet (if provisioned), the
   * users, and the id of the asset with code UC (if present).
   */
  datatype StoreState = StoreState(
    entries: seq<Entry>,
    txns: map<Uuid, TxnType>,
    walletOf: map<Uuid, Uuid>,
    systemWallet: Option<Uuid>,
    users: map<string, UserRow>,
    ucAsset: Option<Uuid>)

  /** A wallet's balance: the sum of its entries (0 when it has none). */
  function BalanceOf(entries: seq<Entry>, wallet: Uuid): int
  {
    if entries == [] then 0
    else (if entries[0].walletId == wallet then entries[0].amount else 0) + BalanceOf(entries[1..], wallet)
  }

  /** The sum of the entries a transaction owns. */
  function TxnTotal(entries: seq<Entry>, txnId: Uuid): int
  {
    if entries == [] then 0
    else (if entries[0].txnId == txnId then entries[0].amount else 0) + TxnTotal(entries[1..], txnId)
  }

  lemma {:induction false} BalanceOfAppend(a: seq<Entry>, b: seq<Entry>, wallet: Uuid)
    ensures BalanceOf(a + b, wallet) == BalanceOf(a, wallet) + BalanceOf(b, wallet)
  {
    if a == [] {
      assert a + b == b;
    } else {
      assert (a + b)[1..] == a[1..] + b;
      BalanceOfAppend(a[1..], b, wallet);
    }
  }

  lemma {:induction false} TxnTotalAppend(a: seq<Entry>, b: seq<Entry>, txnId: Uuid)
    ensures TxnTotal(a + b, txnId) == TxnTotal(a, txnId) + TxnTotal(b, txnId)
  {
    if a == [] {
      assert a + b == b;
    } else {
      assert (a + b)[1..] == a[1..] + b;
      TxnTotalAppend(a[1..], b, txnId);
    }
  }

  /** A wallet no entry mentions has balance 0. */
  lemma {:induction false} BalanceOfUntouched(entries: seq<Entry>, wallet: Uuid)
    requires forall k :: 0 <= k < |entries| ==> entries[k].walletId != wallet
    ensures BalanceOf(entries, wallet) == 0
  {
    if entries != [] {
      BalanceOfUntouched(entries[1..], wallet);
    }
  }

  /** A transaction no entry mentions has total 0. */
  lemma {:induction false} TxnTotalUntouched(entries: seq<Entry>, txnId: Uuid)
    requires forall k :: 0 <= k < |entries| ==> entries[k].txnId != txnId
    ensures TxnTotal(entries, txnId) == 0
  {
    if entries != [] {
      TxnTotalUntouched(entries[1..], txnId);
    }
  }

  /** The balance a two-entry slice contributes to a wallet. */
  lemma PairBalance(pair: seq<Entry>, wallet: Uuid)
    requires |pair| == 2
    ensures BalanceOf(pair, wallet) == (if pair[0].walletId == wallet then pair[0].amount else 0)
                                     + (if pair[1].walletId == wallet then pair[1].amount else 0)
  {
    var rest := pair[1..];
    assert rest[0] == pair[1] && rest[1..] == [];
    assert BalanceOf(rest, wallet) == (if pair[1].walletId == wallet then pair[1].amount else 0) + BalanceOf([], wallet);
  }

  /** The total a two-entry slice contributes to a transaction. */
  lemma PairTotal(pair: seq<Entry>, txnId: Uuid)
    requires |pair| == 2
    ensures TxnTotal(pair, txnId) == (if pair[0].txnId == txnId then pair[0].amount else 0)
                                   + (if pair[1].txnId == txnId then pair[1].amount else 0)
  {
    var rest := pair[1..];
    assert rest[0] == pair[1] && rest[1..] == [];
    assert TxnTotal(rest, txnId) == (if pair[1].txnId == txnId then pair[1].amount else 0) + TxnTotal([], txnId);
  }

  /** The ids of all users. */
  function UserIds(s: StoreState): set<Uuid>
  {
    set name | name in s.users :: s.users[name].id
  }

  /** A wallet row exists with this id: some user's wallet, or the system wallet. */
  predicate KnownWallet(s: StoreState, wallet: Uuid)
  {
    wallet in s.walletOf.Values || s.systemWallet == Some(wallet)
  }

  /**
   * The ledger invariants: every entry belongs to a recorded transaction
   * and an existing wallet; the entries of every TOPUP or SPEND
   * transaction sum to zero (BONUS is the one unmatched credit); every
   * user wallet belongs to a user and has a non-negative balance; the
   * system wallet is no user's wallet.
   */
  ghost predicate Valid(s: StoreState)
  {
    && (forall k :: 0 <= k < |s.entries| ==> s.entries[k].txnId in s.txns && KnownWallet(s, s.entries[k].walletId))
    && (forall t :: t in s.txns && s.txns[t] != BONUS ==> TxnTotal(s.entries, t) == 0)
    && (forall u :: u in s.walletOf ==> u in UserIds(s) && BalanceOf(s.entries, s.walletOf[u]) >= 0)
    && (s.systemWallet.Some? ==> s.systemWallet.value !in s.walletOf.Values)
  }

  /** The statements of the services at which the database may report an error. */
  datatype Step =
    | Probe | ReadBalance                                  // idempotency fast path; Balance
    | Begin | Lock | ReadFunds | InsertTxn | InsertUserEntry
    | FindSystem | InsertSystemEntry | ReadBack | Commit   // a transfer's unit of work
    | FindUser | InsertUser | FindAsset | InsertWallet
    | InsertBonusTxn | InsertBonusEntry | FindWallet      // signup and signin

  const Outage: Error := Driver(Unavailable)

  /** The store behind the generated query handle (`*repository.Queries`). */
  class Queries {
    var entries: seq<Entry>
    var txns: map<Uuid, TxnType>
    var walletOf: map<Uuid, Uuid>
    var systemWallet: Option<Uuid>
    var users: map<string, UserRow>
    var ucAsset: Option<Uuid>

    constructor (s: StoreState)
      ensures State() == s
    {
      entries, txns, walletOf, systemWallet, users, ucAsset :=
        s.entries, s.txns, s.walletOf, s.systemWallet, s.users, s.ucAsset;
    }

    function State(): StoreState
      reads this
    {
      StoreState(entries, txns, walletOf, systemWallet, users, ucAsset)
    }

    /** Puts back a state taken earlier: the rollback of a database transaction. */
    method Restore(s: StoreState)
      modifies this
      ensures State() == s
    {
      entries, txns, walletOf, systemWallet, users, ucAsset :=
        s.entries, s.txns, s.walletOf, s.systemWallet, s.users, s.ucAsset;
    }

    // ------------------------------------------------------------ reads

    function GetTransactionById(id: Uuid, down: bool): Result<TxnType, Error>
      reads this
    {
      if down then Failure(Outage)
      else if id in txns then Success(txns[id])
      else Failure(Driver(NoRows))
    }

    function GetBalance(wallet: Uuid, down: bool): Result<int, Error>
      reads this
    {
      if down then Failure(Outage) else Success(BalanceOf(entries, wallet))
    }

    /** The wallet the owner holds (its row lock is not modelled: operations run one at a time). */
    function LockWallet(owner: Uuid, down: bool): Result<Uuid, Error>
      reads this
    {
      if down then Failure(Outage)
      else if owner in walletOf then Success(walletOf[owner])
      else Failure(Driver(NoRows))
    }

    function GetWalletByOwner(owner: Uuid, down: bool): Result<Uuid, Error>
      reads this
    {
      LockWallet(owner, down)
    }

    function GetSystemWallet(down: bool): Result<Uuid, Error>
      reads this
    {
      if down then Failure(Outage)
      else if systemWallet.Some? then Success(systemWallet.value)
      else Failure(Driver(NoRows))
    }

    function GetUserByUsername(username: string, down: bool): Result<UserRow, Error>
      reads this
    {
      if down then Failure(Outage)
      else if username in users then Success(users[username])
      else Failure(Driver(NoRows))
    }

    /** GetAssetByCode for the one code the core asks for, UC. */
    function GetAssetByCode(down: bool): Result<Uuid, Error>
      reads this
    {
      if down then Failure(Outage)
      else if ucAsset.Some? then Success(ucAsset.value)
      else Failure(Driver(NoRows))
    }

    // ----------------------------------------------------------- writes

    /** Inserts a transaction row; the primary key rejects an id already present. */
    method CreateTxn(id: Uuid, kind: TxnType, down: bool) returns (r: Result<Uuid, Error>)
      modifies this
      ensures r == if down then Failure(Outage)
                   else if id in old(txns) then Failure(Driver(UniqueViolation))
                   else Success(id)
      ensures State() == if r.Success? then old(State()).(txns := old(txns)[id := kind]) else old(State())
    {
      if down {
        return Failure(Outage);
      }
      if id in txns {
        return Failure(Driver(UniqueViolation));
      }
      txns := txns[id := kind];
      return Success(id);
    }

    /** Appends one ledger entry. */
    method CreateLedger(txnId: Uuid, wallet: Uuid, amount: Int32Value, down: bool) returns (err: Option<Error>)
      modifies this
      ensures err == if down then Some(Outage) else None
      ensures State() == if down then old(State())
                         else old(State()).(entries := old(entries) + [Entry(txnId, wallet, amount)])
    {
      if down {
        return Some(Outage);
      }
      entries := entries + [Entry(txnId, wallet, amount)];
      return None;
    }

    /** Inserts a user; username and id are unique. */
    method CreateUser(username: string, passwordHash: string, id: Uuid, down: bool) returns (r: Result<UserRow, Error>)
      modifies this
      ensures r == if down then Failure(Outage)
                   else if username in old(users) || id in UserIds(old(State())) then Failure(Driver(UniqueViolation))
                   else Success(UserRow(id, passwordHash))
      ensures State() == if r.Success? then old(State()).(users := old(users)[username := UserRow(id, passwordHash)])
                         else old(State())
    {
      if down {
        return Failure(Outage);
      }
      if username in users || id in UserIds(State()) {
        return Failure(Driver(UniqueViolation));
      }
      users := users[username := UserRow(id, passwordHash)];
      return Success(UserRow(id, passwordHash));
    }

    /** Inserts a USER-owned wallet; wallet ids are unique and a user owns one wallet. */
    method CreateWallet(owner: Uuid, wallet: Uuid, down: bool) returns (r: Result<Uuid, Error>)
      modifies this
      ensures r == if down then Failure(Outage)
                   else if KnownWallet(old(State()), wallet) || owner in old(walletOf) then Failure(Driver(UniqueViolation))
                   else Success(wallet)
      ensures State() == if r.Success? then old(State()).(walletOf := old(walletOf)[owner := wallet])
                         else old(State())
    {
      if down {
        return Failure(Outage);
      }
      if KnownWallet(State(), wallet) || owner in walletOf {
        return Failure(Driver(UniqueViolation));
      }
      walletOf := walletOf[owner := wallet];
      return Success(wallet);
    }
  }
}
