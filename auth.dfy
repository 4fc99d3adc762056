/**
 * Signup and Signin of the auth service. They call the query handle
 * directly, statement after statement, with no enclosing database
 * transaction.
 */
module AuthService {
  import opened Wrappers
  import opened Models
  import opened LedgerStore

  /** The one error either operation reports, whatever went wrong. */
  const AuthFailed: Error := Plain("authentication failed")

  /**
   * The ids a signup hands out: the user and wallet ids the database
   * generates, and the random id of the bonus transaction.
   */
  datatype NewIds = NewIds(userId: Uuid, walletId: Uuid, bonusTxnId: Uuid)

  /** What a signup answers and the store it leaves behind (partial writes included). */
  datatype SignupOutcome = SignupOutcome(response: Result<UserResponse, Error>, after: StoreState)

  /**
   * Signup step by step. `hash` is the bcrypt hash of the password (None
   * when hashing fails), `token` the signed access token (None when
   * signing fails), `bonus` the configured initial bonus.
   */
  function SignupSpec(s: StoreState, input: UserParams, ids: NewIds, hash: Option<string>,
                      token: Option<string>, bonus: Int32Value, failing: set<Step>): (out: SignupOutcome)
    ensures out.response.Failure? ==> out.response.error == AuthFailed
  {
    if FindUser !in failing && input.username in s.users then SignupOutcome(Failure(AuthFailed), s)
    else if hash.None? then SignupOutcome(Failure(AuthFailed), s)
    else if InsertUser in failing || input.username in s.users || ids.userId in UserIds(s) then
      SignupOutcome(Failure(AuthFailed), s)
    else
      var s1 := s.(users := s.users[input.username := UserRow(ids.userId, hash.value)]);
      if FindAsset in failing || s1.ucAsset.None? then SignupOutcome(Failure(AuthFailed), s1)
      else if InsertWallet in failing || KnownWallet(s1, ids.walletId) || ids.userId in s1.walletOf then
        SignupOutcome(Failure(AuthFailed), s1)
      else
        var s2 := s1.(walletOf := s1.walletOf[ids.userId := ids.walletId]);
        if InsertBonusTxn in failing || ids.bonusTxnId in s2.txns then SignupOutcome(Failure(AuthFailed), s2)
        else
          var s3 := s2.(txns := s2.txns[ids.bonusTxnId := BONUS]);
          if InsertBonusEntry in failing then SignupOutcome(Failure(AuthFailed), s3)
          else
            var s4 := s3.(entries := s3.entries + [Entry(ids.bonusTxnId, ids.walletId, bonus)]);
            if ReadBalance in failing || token.None? then SignupOutcome(Failure(AuthFailed), s4)
            else
              SignupOutcome(Success(UserResponse(ids.userId, input.username, Some(ids.walletId),
                                                 Some(BalanceOf(s4.entries, ids.walletId)), token.value)), s4)
  }

  /**
   * Signin: the user must exist, the password must match its stored
   * hash under `verify`, and the user must own a wallet; the answer
   * carries the id, the username and the token, without wallet or balance.
   */
  function SigninSpec(s: StoreState, input: UserParams, verify: (string, string) -> bool,
                      token: Option<string>, failing: set<Step>): (r: Result<UserResponse, Error>)
    ensures r.Failure? ==> r.error == AuthFailed
    ensures r.Success? <==>
              && FindUser !in failing && input.username in s.users
              && verify(s.users[input.username].passwordHash, input.password)
              && FindWallet !in failing && s.users[input.username].id in s.walletOf
              && token.Some?
    ensures r.Success? ==> r.value == UserResponse(s.users[input.username].id, input.username, None, None, token.value)
  {
    if FindUser in failing || input.username !in s.users then Failure(AuthFailed)
    else
      var user := s.users[input.username];
      if !verify(user.passwordHash, input.password) then Failure(AuthFailed)
      else if FindWallet in failing || user.id !in s.walletOf || token.None? then Failure(AuthFailed)
      else Success(UserResponse(user.id, input.username, None, None, token.value))
  }

  class AuthService {
    const repo: Queries
    /** The bonus credited to every new wallet. */
    const initialBonus: Int32Value

    constructor (repo: Queries, initialBonus: Int32Value)
      ensures this.repo == repo && this.initialBonus == initialBonus
    {
      this.repo := repo;
      this.initialBonus := initialBonus;
    }

    /**
     * Signup: refuse a taken username, then create the user, its wallet,
     * a BONUS transaction and its one entry, and answer with the new
     * balance and a token. A failing step keeps the earlier writes.
     */
    method Signup(input: UserParams, ids: NewIds, hash: Option<string>, token: Option<string>, failing: set<Step>)
      returns (r: Result<UserResponse, Error>)
      modifies repo
      ensures var out := SignupSpec(old(repo.State()), input, ids, hash, token, initialBonus, failing);
              r == out.response && repo.State() == out.after
    {
      var existing := repo.GetUserByUsername(input.username, FindUser in failing);
      if existing.Success? {
        return Failure(AuthFailed);
      }
      if hash.None? {
        return Failure(AuthFailed);
      }
      var user := repo.CreateUser(input.username, hash.value, ids.userId, InsertUser in failing);
      if user.Failure? {
        return Failure(AuthFailed);
      }
      var asset := repo.GetAssetByCode(FindAsset in failing);
      if asset.Failure? {
        return Failure(AuthFailed);
      }
      var wallet := repo.CreateWallet(user.value.id, ids.walletId, InsertWallet in failing);
      if wallet.Failure? {
        return Failure(AuthFailed);
      }
      var txn := repo.CreateTxn(ids.bonusTxnId, BONUS, InsertBonusTxn in failing);
      if txn.Failure? {
        return Failure(AuthFailed);
      }
      var err := repo.CreateLedger(txn.value, wallet.value, initialBonus, InsertBonusEntry in failing);
      if err.Some? {
        return Failure(AuthFailed);
      }
      var balance := repo.GetBalance(wallet.value, ReadBalance in failing);
      if balance.Failure? || token.None? {
        return Failure(AuthFailed);
      }
      return Success(UserResponse(user.value.id, input.username, Some(wallet.value), Some(balance.value), token.value));
    }

    /** Signin reads the store and changes nothing. */
    method Signin(input: UserParams, verify: (string, string) -> bool, token: Option<string>, failing: set<Step>)
      returns (r: Result<UserResponse, Error>)
      ensures r == SigninSpec(repo.State(), input, verify, token, failing)
    {
      var user := repo.GetUserByUsername(input.username, FindUser in failing);
      if user.Failure? {
        return Failure(AuthFailed);
      }
      if !verify(user.value.passwordHash, input.password) {
        return Failure(AuthFailed);
      }
      var wallet := repo.GetWalletByOwner(user.value.id, FindWallet in failing);
      if wallet.Failure? || token.None? {
        return Failure(AuthFailed);
      }
      return Success(UserResponse(user.value.id, input.username, None, None, token.value));
    }
  }

  // ------------------------------------------------------------ properties

  /**
   * A taken username is refused and nothing is written, whichever
   * statements fail: when the lookup is down, the unique username
   * rejects the insert.
   */
  lemma SignupRejectsTakenUsername(s: StoreState, input: UserParams, ids: NewIds, hash: Option<string>,
                                   token: Option<string>, bonus: Int32Value, failing: set<Step>)
    requires input.username in s.users
    ensures SignupSpec(s, input, ids, hash, token, bonus, failing) == SignupOutcome(Failure(AuthFailed), s)
  {
  }

  /** A wallet no entry mentions has balance 0 in a valid store. */
  lemma FreshWalletIsEmpty(s: StoreState, wallet: Uuid)
    requires Valid(s) && !KnownWallet(s, wallet)
    ensures BalanceOf(s.entries, wallet) == 0
  {
    BalanceOfUntouched(s.entries, wallet);
  }

  /**
   * A successful signup on a valid store creates the user with the hash,
   * gives it a wallet no row held before, records one BONUS transaction
   * under an unused id with exactly one entry, the bonus on the new
   * wallet and no counterparty entry, and answers with exactly the bonus
   * as balance; no other wallet moves.
   */
  lemma SignupIssuesBonus(s: StoreState, input: UserParams, ids: NewIds, hash: Option<string>,
                          token: Option<string>, bonus: Int32Value, failing: set<Step>)
    requires Valid(s)
    requires SignupSpec(s, input, ids, hash, token, bonus, failing).response.Success?
    ensures var out := SignupSpec(s, input, ids, hash, token, bonus, failing);
            && input.username !in s.users && hash.Some?
            && ids.bonusTxnId !in s.txns && !KnownWallet(s, ids.walletId)
            && out.after.entries == s.entries + [Entry(ids.bonusTxnId, ids.walletId, bonus)]
            && out.after.systemWallet == s.systemWallet && out.after.ucAsset == s.ucAsset
            && out.after.users == s.users[input.username := UserRow(ids.userId, hash.value)]
            && out.after.walletOf == s.walletOf[ids.userId := ids.walletId]
            && out.after.txns == s.txns[ids.bonusTxnId := BONUS]
            && out.response.value == UserResponse(ids.userId, input.username, Some(ids.walletId), Some(bonus as int), token.value)
            && (forall v :: v != ids.walletId ==> BalanceOf(out.after.entries, v) == BalanceOf(s.entries, v))
  {
    var out := SignupSpec(s, input, ids, hash, token, bonus, failing);
    var entry := [Entry(ids.bonusTxnId, ids.walletId, bonus)];
    assert out.after.entries == s.entries + entry;
    FreshWalletIsEmpty(s, ids.walletId);
    forall v
      ensures BalanceOf(out.after.entries, v) == BalanceOf(s.entries, v) + (if v == ids.walletId then bonus as int else 0)
    {
      BalanceOfAppend(s.entries, entry, v);
      assert BalanceOf(entry, v) == (if v == ids.walletId then bonus as int else 0) + BalanceOf([], v);
    }
  }

  /** Inserting a user with a fresh username and id keeps the invariants. */
  lemma UserInsertKeepsValid(s: StoreState, username: string, row: UserRow)
    requires Valid(s) && username !in s.users && row.id !in UserIds(s)
    ensures Valid(s.(users := s.users[username := row]))
  {
    var s1 := s.(users := s.users[username := row]);
    assert UserIds(s) <= UserIds(s1) by {
      forall n | n in s.users
        ensures s.users[n].id in UserIds(s1)
      {
        assert s1.users[n] == s.users[n];
      }
    }
  }

  /** Giving a user without a wallet a fresh wallet keeps the invariants; the new wallet holds 0. */
  lemma WalletInsertKeepsValid(s: StoreState, owner: Uuid, wallet: Uuid)
    requires Valid(s) && owner in UserIds(s) && owner !in s.walletOf && !KnownWallet(s, wallet)
    ensures Valid(s.(walletOf := s.walletOf[owner := wallet]))
    ensures BalanceOf(s.entries, wallet) == 0
  {
    var s2 := s.(walletOf := s.walletOf[owner := wallet]);
    FreshWalletIsEmpty(s, wallet);
    assert s.walletOf.Values <= s2.walletOf.Values by {
      forall u | u in s.walletOf
        ensures s.walletOf[u] in s2.walletOf.Values
      {
        assert s2.walletOf[u] == s.walletOf[u];
      }
    }
    assert s2.walletOf.Values <= s.walletOf.Values + {wallet};
  }

  /** Recording a BONUS transaction under a fresh id keeps the invariants. */
  lemma BonusTxnKeepsValid(s: StoreState, txnId: Uuid)
    requires Valid(s) && txnId !in s.txns
    ensures Valid(s.(txns := s.txns[txnId := BONUS]))
  {
  }

  /** A non-negative entry of a BONUS transaction on a user wallet keeps the invariants. */
  lemma BonusEntryKeepsValid(s: StoreState, txnId: Uuid, wallet: Uuid, amount: int)
    requires Valid(s) && txnId in s.txns && s.txns[txnId] == BONUS
    requires wallet in s.walletOf.Values && amount >= 0
    ensures Valid(s.(entries := s.entries + [Entry(txnId, wallet, amount)]))
  {
    var entry := [Entry(txnId, wallet, amount)];
    var s4 := s.(entries := s.entries + entry);
    forall v
      ensures BalanceOf(s4.entries, v) >= BalanceOf(s.entries, v)
    {
      BalanceOfAppend(s.entries, entry, v);
      assert BalanceOf(entry, v) == (if v == wallet then amount else 0) + BalanceOf([], v);
    }
    forall t | t in s4.txns && s4.txns[t] != BONUS
      ensures TxnTotal(s4.entries, t) == 0
    {
      TxnTotalAppend(s.entries, entry, t);
      assert TxnTotal(entry, t) == 0 + TxnTotal([], t);
    }
  }

  /**
   * With a non-negative bonus every signup, finished or stopped half
   * way, leaves a valid store: a user without a wallet, a wallet with
   * balance 0 and a BONUS transaction without entries all satisfy the
   * ledger invariants.
   */
  lemma SignupKeepsValid(s: StoreState, input: UserParams, ids: NewIds, hash: Option<string>,
                         token: Option<string>, bonus: Int32Value, failing: set<Step>)
    requires Valid(s) && bonus >= 0
    ensures Valid(SignupSpec(s, input, ids, hash, token, bonus, failing).after)
  {
    if (FindUser !in failing && input.username in s.users) || hash.None?
       || InsertUser in failing || input.username in s.users || ids.userId in UserIds(s) {
      return;
    }
    var s1 := s.(users := s.users[input.username := UserRow(ids.userId, hash.value)]);
    UserInsertKeepsValid(s, input.username, UserRow(ids.userId, hash.value));
    assert ids.userId in UserIds(s1) by {
      assert s1.users[input.username].id == ids.userId;
    }
    if FindAsset in failing || s1.ucAsset.None?
       || InsertWallet in failing || KnownWallet(s1, ids.walletId) || ids.userId in s1.walletOf {
      return;
    }
    var s2 := s1.(walletOf := s1.walletOf[ids.userId := ids.walletId]);
    WalletInsertKeepsValid(s1, ids.userId, ids.walletId);
    if InsertBonusTxn in failing || ids.bonusTxnId in s2.txns {
      return;
    }
    var s3 := s2.(txns := s2.txns[ids.bonusTxnId := BONUS]);
    BonusTxnKeepsValid(s2, ids.bonusTxnId);
    if InsertBonusEntry in failing {
      return;
    }
    assert s3.walletOf[ids.userId] == ids.walletId;
    BonusEntryKeepsValid(s3, ids.bonusTxnId, ids.walletId, bonus as int);
  }

  /**
   * Signup is not atomic: when the wallet insert fails, the user row
   * stays, and every later signup with that username is refused.
   */
  lemma SignupIsNotAtomic(s: StoreState, input: UserParams, ids: NewIds, hash: Option<string>,
                          token: Option<string>, bonus: Int32Value, failing: set<Step>,
                          retryIds: NewIds, retryHash: Option<string>, retryToken: Option<string>, retryFailing: set<Step>)
    requires FindUser !in failing && InsertUser !in failing && FindAsset !in failing && InsertWallet in failing
    requires input.username !in s.users && ids.userId !in UserIds(s) && hash.Some? && s.ucAsset.Some?
    ensures var out := SignupSpec(s, input, ids, hash, token, bonus, failing);
            && out.response == Failure(AuthFailed)
            && input.username in out.after.users && out.after.walletOf == s.walletOf
            && SignupSpec(out.after, input, retryIds, retryHash, retryToken, bonus, retryFailing).response == Failure(AuthFailed)
  {
  }

  /**
   * A user who signed up can sign in with the same password: Signin
   * finds the new user and wallet and answers with the same id.
   */
  lemma SignupThenSignin(s: StoreState, input: UserParams, ids: NewIds, hash: Option<string>,
                         token: Option<string>, bonus: Int32Value, failing: set<Step>,
                         verify: (string, string) -> bool, signinToken: string)
    requires SignupSpec(s, input, ids, hash, token, bonus, failing).response.Success?
    requires hash.Some? && verify(hash.value, input.password)
    ensures var after := SignupSpec(s, input, ids, hash, token, bonus, failing).after;
            SigninSpec(after, input, verify, Some(signinToken), {})
              == Success(UserResponse(ids.userId, input.username, None, None, signinToken))
  {
  }

  /** A wrong password is refused, whatever else holds. */
  lemma SigninRejectsWrongPassword(s: StoreState, input: UserParams, verify: (string, string) -> bool,
                                   token: Option<string>, failing: set<Step>)
    requires input.username in s.users && !verify(s.users[input.username].passwordHash, input.password)
    ensures SigninSpec(s, input, verify, token, failing) == Failure(AuthFailed)
  {
  }
}
