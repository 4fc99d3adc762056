# wallet-service ledger, in Dafny

A model of the core of `wallet-service`, a Go HTTP service that keeps user
wallets on a double-entry ledger. No balance is stored: a wallet's balance is
the sum of its ledger entries. A top-up or a spend records one transaction row
under a client-chosen id, which also serves as the idempotency key. It then
writes two offsetting entries, one on the user's wallet and one on the system
wallet, inside one database transaction. Signup creates a user, a wallet and
a BONUS transaction with a single credit entry.

Modules, in dependency order:

- `Wrappers` holds `Option` and `Result`.
- `Strings` models Go's `strings.Split` and `strings.Join`, with the round trip `Join(Split(s, c), [c]) == s`.
- `Models` covers the error values (`errors.New`, `%w` wrapping, `*AppError`), the error table and the request/response records.
- `Validations` covers request-body validation and the two message formatters, as loops proved against recursive specifications.
- `LedgerStore` defines the store as a class `Queries`, holding:
  - the ledger entries,
  - the transaction types,
  - the owner-to-wallet map,
  - the system wallet,
  - the users,
  - the UC asset.

  It also defines the ledger invariant `Valid` and the `int32` conversion of ledger amounts.
- `WalletUnits` holds the two closures `TopUp` and `Spend` pass to `WithTransaction`. A Dafny method cannot be passed as a value, so each closure is a `UnitOfWork` value, run by `RunUnit`.
- `Repository` models `WithTransaction` as snapshot, run, then commit or restore.
- `WalletService` covers `TopUp`, `Spend` and `Balance`, and the ledger properties they keep.
- `AuthService` covers `Signup` and `Signin`.
- `Middleware` covers token extraction and the context user.

Each service operation takes the database's failures as an input: `failing`
is the set of statements (`Step`s) at which the database reports an error.
This makes every error branch of the Go code reachable in the model.
Identifiers the database or `uuid.New()` generates are also inputs, and so are:

- the bcrypt hash;
- the password check;
- the signed token;
- the parsed token claim;
- the configured signup bonus.

## Model

| member | source | states |
|---|---|---|
| WalletService.WalletService.TopUp | internal/service/wallet.go:26-120 | A transaction id already recorded writes nothing and answers with the balance of `input.WalletId`. Otherwise the store ends exactly as the top-up unit of work under `WithTransaction` leaves it, and the answer is "topup successful" with the read-back balance, or a 500 "transaction failed" wrapping the cause. |
| WalletService.WalletService.Spend | internal/service/wallet.go:122-228 | Same shape as TopUp, with the spend unit of work and "spend successful". |
| WalletService.WalletService.Balance | internal/service/wallet.go:230-246 | The result is the ledger sum of `walletId`, independent of `userId`. It reads the store without changing it. A failed read gives `ErrBalanceRetrievalFailed`. |
| WalletService.Replay | internal/service/wallet.go:29-53 | The fast path fails exactly when the balance read fails, with `ErrBalanceRetrievalFailed`. Otherwise it answers "transaction with id already exist" with the ledger sum of the requested wallet. |
| WalletService.Respond | internal/service/wallet.go:111-119 | A failed unit of work becomes an `AppError` with status 500 whose stored message, which the handler writes to the response body, and whose text are both "transaction failed". It unwraps to the original cause. Success carries the unit's balance. |
| WalletService.RetryReplaysBalance | internal/service/wallet.go:125-146 | After a committed transfer its id is recorded, so a retry takes the fast path. When the request names the user's own wallet, the retry reports the same balance as the first call. |
| WalletService.TopUpPostsBalancedPair | internal/service/wallet.go:57-119 | A committed top-up (amount within int32) on a valid store records one TOPUP transaction and exactly two entries: +amount on the locked user wallet and -amount on the system wallet. The pair sums to zero, the reported balance is the old balance + amount, and every other wallet is unchanged. The wallet map, users, system wallet and asset are unchanged. |
| WalletService.SpendPostsBalancedPair | internal/service/wallet.go:150-227 | A committed spend found balance >= amount. It records one SPEND transaction and exactly two entries: -amount on the user wallet and +amount on the system wallet. The pair sums to zero, the reported balance is the old balance - amount, and every other wallet is unchanged. The wallet map, users, system wallet and asset are unchanged. |
| WalletService.TransferKeepsValid | internal/service/wallet.go:57-217 | Every committed top-up or spend of an int32-sized amount preserves the ledger invariant `Valid`. |
| WalletService.SpendNeverOverdraws | internal/service/wallet.go:158-205 | A committed spend of any positive amount leaves the user wallet non-negative. This holds even where the int32 conversion wraps. |
| WalletService.SpendRefusesOverdraft | internal/service/wallet.go:168-170 | A spend above the locked wallet's balance fails with `ErrInsufficientBalance` and the store is unchanged. The caller's `errors.As` finds the outer `AppError`, with status 500 wrapping the 400 error. |
| WalletService.SpendAcceptsWholeBalance | internal/service/wallet.go:168-170 | A spend of exactly the balance is accepted at every amount, since the funds check compares int64 values. It leaves the wallet at 0 for amounts up to 2^31; above that the int32 conversion makes the user entry differ from -amount. |
| WalletService.TopUpOverflowCounterexample | internal/service/wallet.go:74-97 | A top-up of 2^31 on a valid store commits entries -2^31 and -2^31. Their total is -2^32, the user's 100 becomes 100 - 2^31, and the store is no longer valid. |
| WalletService.TopUpWrapDebitsCounterexample | internal/service/wallet.go:74-97 | A top-up of 2^31 + 1 on a valid store commits -(2^31 - 1) on the user and 2^31 - 1 on the system wallet. The pair sums to zero, but the top-up debits the user from 100 to 100 - (2^31 - 1), and the store is no longer valid. |
| WalletService.SpendOverflowCounterexample | internal/service/wallet.go:168-205 | A spend of 2^31 by a user holding exactly 2^31 passes the balance check and commits -2^31 on both the user and the system wallet. The SPEND transaction totals -2^32, so the store is no longer valid. |
| WalletService.CheckedTransferEntries | internal/service/wallet.go:74-97 | The intended conversion gives a pair exactly when the amount fits int32, and that pair sums to zero and moves the user wallet by the signed amount. |
| WalletUnits.TransferEntries | internal/service/wallet.go:74-97 | The pair a transfer writes: two entries under the transaction id, on the user and system wallets, each within int32. Up to 2^31-1 they are the signed amount and its negation. |
| WalletUnits.RunTopUp | internal/service/wallet.go:57-109 | The top-up closure ends with the error `TopUpSpec` names, or with the store and read-back balance `TopUpSpec` gives. |
| WalletUnits.RunSpend | internal/service/wallet.go:150-217 | The spend closure ends with the error `SpendSpec` names, or with the store and read-back balance `SpendSpec` gives. |
| LedgerStore.Int32 | internal/service/wallet.go:76 | `int32(x)`: the result is congruent to x modulo 2^32 and lies in the int32 range. It is x itself when x already fits. |
| Repository.Repository.WithTransaction | internal/repository/repository.go:32-53 | If begin fails, the closure never runs and a wrapped error is returned. A closure error is returned unchanged and the store is as before. If commit fails, a wrapped error is returned and the store is as before. Otherwise nil is returned and all of the closure's writes persist. |
| AuthService.AuthService.Signup | internal/service/auth.go:27-114 | The store and the answer follow `SignupSpec` step by step, including the partial writes left when a later step fails. |
| AuthService.SignupSpec | internal/service/auth.go:27-114 | Every failure of a signup is "authentication failed". |
| AuthService.AuthService.Signin | internal/service/auth.go:116-145 | Signin changes nothing and its answer is `SigninSpec` of the current store. |
| AuthService.SigninSpec | internal/service/auth.go:116-144 | Success happens exactly when all of these hold: the user exists, `verify` accepts the stored hash, the user owns a wallet and a token is issued. The response omits wallet and balance. Every failure is "authentication failed". |
| AuthService.SignupRejectsTakenUsername | internal/service/auth.go:28-32 | A taken username fails with "authentication failed" and writes nothing, even when the username lookup itself fails. |
| AuthService.SignupIssuesBonus | internal/service/auth.go:56-113 | A successful signup on a valid store adds the user with its hash, and one wallet that no row held before. It records one BONUS transaction under an unused id, and appends exactly one ledger entry: the bonus on the new wallet, with no counterparty entry. The system wallet and the asset are unchanged. The reported balance is exactly the bonus, and no other wallet changes. |
| AuthService.SignupKeepsValid | internal/service/auth.go:40-85 | With a non-negative bonus, every signup keeps `Valid`, whether it finished or stopped part way. |
| AuthService.UserInsertKeepsValid | internal/service/auth.go:40-48 | Inserting a user with a fresh name and id keeps `Valid`. |
| AuthService.WalletInsertKeepsValid | internal/service/auth.go:56-64 | A fresh wallet for a wallet-less user keeps `Valid` and has balance 0. |
| AuthService.BonusTxnKeepsValid | internal/service/auth.go:67-74 | A new BONUS transaction row keeps `Valid`. |
| AuthService.BonusEntryKeepsValid | internal/service/auth.go:77-85 | A non-negative, unmatched BONUS entry on a user wallet keeps `Valid`. |
| AuthService.FreshWalletIsEmpty | internal/service/auth.go:87-98 | A wallet absent from a valid store has balance 0. |
| AuthService.SignupIsNotAtomic | internal/service/auth.go:40-64 | A failed wallet insert keeps the user row and creates no wallet, and every later signup with that username fails. |
| AuthService.SignupThenSignin | internal/service/auth.go:116-144 | After a successful signup, signing in with the same password succeeds for the same user id. |
| AuthService.SigninRejectsWrongPassword | internal/service/auth.go:123-126 | A password the stored hash rejects fails with "authentication failed". |
| Validations.WalletTagErrors | internal/models/wallet.go:7-10 | The `required` and `gt=0` tags report nothing exactly when the transaction id is not nil and the amount is positive. |
| Validations.AuthTagErrors | internal/models/auth.go:10-13 | The two `required` tags report nothing exactly when the username and the password are both non-empty. |
| Validations.FormatWalletValidationError | internal/validations/wallet.go:43-64 | The loop's messages are the per-error messages in input order, joined with ", ". With no message the result is `ErrInvalidInput`. |
| Validations.WalletMessagesFrom | internal/validations/wallet.go:46-57 | A text is among the messages exactly when some field error maps to it. |
| Validations.WalletMessagesNone | internal/validations/wallet.go:59-61 | There are no messages exactly when every field error maps to none. |
| Validations.WalletMessagesAppend | internal/validations/wallet.go:46-57 | The messages of concatenated error lists are the concatenated messages, so order is kept. |
| Validations.ValidateWalletInput | internal/validations/wallet.go:15-41 | An undecodable body gives `ErrInvalidBody`. Success happens exactly for a non-nil id and a positive amount, and returns the body unchanged. Otherwise the error is the formatted messages. |
| Validations.WalletBodyMessages | internal/validations/wallet.go:46-63 | Each malformed body gets its messages, e.g. a nil id with a zero amount gives "txn_id is required, amount is required". |
| Validations.FormatValidationError | internal/validations/auth.go:42-63 | The loop's messages are the per-error messages in input order, joined with ", ". With no message the result is `ErrInvalidInput`. |
| Validations.AuthMessagesFrom | internal/validations/auth.go:45-55 | A text is among the messages exactly when some field error maps to it. |
| Validations.AuthMessagesNone | internal/validations/auth.go:57-59 | There are no messages exactly when every field error maps to none. |
| Validations.AuthMessagesAppend | internal/validations/auth.go:45-55 | The messages of concatenated error lists are the concatenated messages. |
| Validations.ValidateAuthInput | internal/validations/auth.go:14-40 | An undecodable body gives `ErrInvalidBody`. Success happens exactly for a non-empty username and password, and returns the body unchanged. Otherwise the error is the formatted messages. |
| Validations.NoMinMessageForBodies | internal/validations/auth.go:52-53 | The 8-character password message never arises from a request body, because `UserParams` declares no `min` tag. |
| Models.AppError.Error | internal/models/error.go:20-25 | The text is the message when the message is non-empty, otherwise the wrapped error's text. |
| Models.AppError.Unwrap | internal/models/error.go:27-29 | The result is the wrapped error itself. |
| Models.NewAppError | internal/models/error.go:66-72 | The new value stores the given error, message and status unchanged, so it unwraps to the error, and its text follows `Error`. |
| Models.ErrorTable | internal/models/error.go:32-63 | The statuses are 409, 404, 400, 500, 500 and 500, and each entry's text equals its wrapped error's text. |
| Models.AsAppError | internal/handler/wallet.go:55-57 | `errors.As` finds an `*AppError` that is itself the error. |
| Middleware.ExtractTokenIff | internal/middleware/auth.go:32-63 | A token t is found exactly when one of two holds. Either the cookie is non-empty and equals t. Or there is no cookie and the header is "Bearer " + t, with t non-empty and free of spaces. |
| Middleware.CookieThenHeader | internal/middleware/auth.go:32-42 | The cookie wins over the header. A well-formed header is used when there is no cookie. Neither cookie nor header means no token. |
| Middleware.LowercaseSchemeRejected | internal/middleware/auth.go:45-52 | "bearer abc" is refused because the scheme is matched case-sensitively. |
| Middleware.SpacedTokenRejected | internal/middleware/auth.go:45-52 | "Bearer a b" is refused because it splits into three parts. |
| Middleware.EmptyBearerRejected | internal/middleware/auth.go:57-63 | "Bearer " is refused by the empty-token check. |
| Middleware.Authenticate | internal/middleware/auth.go:32-117 | Every rejection is the same 401 "unauthorized". A request passes exactly when all of these hold: a token is found, it parses, its claim is a UUID, that user exists and owns a wallet. The context user is that id with the wallet the store maps it to. |

## Left out

- HTTP handlers, routing, JSON encoding and decoding, cookies, logging and the debug `fmt.Println` output are I/O. A decoded body, or its absence, is an input.
- The go-playground validator is represented only by the field errors that the struct tags of `WalletRequest` and `UserParams` produce.
- The non-`ValidationErrors` branch of `ValidateWalletInput`/`ValidateAuthInput` (`ErrInvalidInput` for an invalid validation call) is left out: it is not reachable with these struct types.
- The `interface{}`-to-`int64` type assertion on balances and its `ErrInvalidBalance` result are left out. The query's balance is an integer, so that path cannot happen in the model.
- Balances are unbounded integers. Overflowing the database's int64 sum would need more than 2^32 entries.
- The SQL of the generated queries is not part of this model. The store operations are modelled abstractly:
  - the balance is the sum of a wallet's entries;
  - `LockWallet` and `GetWalletByOwner` look up the owner's wallet;
  - the inserts reject a duplicate transaction id, username, user id or wallet, and a second wallet for one owner.
- Driver error texts are not modelled; `DriverText` holds stand-in wording.
- Row locking and concurrency are not modelled: each service call runs alone and to completion. So the lock of `LockWallet` and the isolation of the database transaction are not modelled.
- `Repository.Queries`: modelled as the accessor of the one shared handle. It has no contract of its own. All writes go through that handle and the model has no isolation, so a write through it takes effect at once by construction.
- JWT signing and parsing, and bcrypt hashing and comparison, are foreign libraries. Their results are inputs (`token`, `hash`, `verify`, `parseToken`, `parseUuid`), and token expiry is part of `parseToken`.
- The package that defines the UC asset code and the initial bonus amount is not part of this model. The asset is the store's `ucAsset`, and the bonus is the `initialBonus` field of the auth service, an int32 value.
- `GetUserById` in the middleware is modelled as membership in the set of user ids. Its failure is the `FindUser` step.
- WalletService.TopUpPostsBalancedPair, WalletService.SpendPostsBalancedPair and WalletService.TransferKeepsValid are stated only for amounts up to 2^31-1. Above that, the source's `int32` conversion writes a user entry whose sign or size differs from the amount. A top-up can then debit the user and drive the balance below zero. A spend of 2^31 + 1 credits the user by 2^31 - 1. For amounts congruent to 2^31 modulo 2^32 the pair also no longer sums to zero (see Findings). `SpendNeverOverdraws` covers every amount.
- WalletService.SpendAcceptsWholeBalance states acceptance at every amount but the resulting zero balance only for amounts up to 2^31. A whole-balance spend of 2^31 + 1 writes +(2^31 - 1) on the user wallet, so it leaves 2^32 rather than 0.

## Findings

| source | as written | input that shows it | evidently intended | confidence | as-written member | corrected member |
|---|---|---|---|---|---|---|
| internal/service/wallet.go:76 | The ledger entries of a transfer are `int32(input.Amount)` and `-int32(input.Amount)`, while `gt=0` only bounds the int64 amount from below. | A top-up of 2^31 for a user holding 100 writes -2^31 on the user wallet and -2^31 on the system wallet. The transaction totals -2^32, the user balance drops to 100 - 2^31, and "topup successful" is answered. | Amounts outside the int32 range are refused, so that the two entries are +amount and -amount. | not executed | WalletService.TopUpOverflowCounterexample | WalletService.CheckedTransferEntries |
| internal/service/wallet.go:76 | The same conversion, for amounts above 2^31 that do not wrap to -2^31. | A top-up of 2^31 + 1 for a user holding 100 writes -(2^31 - 1) on the user wallet and 2^31 - 1 on the system wallet. The pair is balanced, but the top-up debits the user to 100 - (2^31 - 1). | Amounts outside the int32 range are refused, so that a top-up always credits the user by the amount. | not executed | WalletService.TopUpWrapDebitsCounterexample | WalletService.CheckedTransferEntries |
| internal/service/wallet.go:183-199 | A spend writes `-int32(input.Amount)` on the user wallet and `int32(input.Amount)` on the system wallet, after an int64 balance check. | A spend of 2^31 by a user holding exactly 2^31 writes -2^31 on both wallets. The SPEND transaction totals -2^32, and the system wallet is debited instead of credited. | Amounts outside the int32 range are refused, so that a spend's pair sums to zero. | not executed | WalletService.SpendOverflowCounterexample | WalletService.CheckedTransferEntries |

The service members model the code as written, with the wrap-around.
`CheckedTransferEntries` is the corrected conversion. The ledger properties
(`TopUpPostsBalancedPair`, `SpendPostsBalancedPair`, `TransferKeepsValid`)
are stated on its domain, amounts that fit int32, where it agrees with the
as-written pair.
