/**
 * Error values and the request/response records of the service.
 *
 * Go's `error` interface becomes the datatype `Error`, one variant per
 * kind of error value the core produces; `*AppError` becomes the record
 * `AppError`, whose `Error` and `Unwrap` follow the two Go methods.
 */
module Models {
  import opened Wrappers

  /** A uuid.UUID; 0 stands for uuid.Nil, the zero value. */
  type Uuid = nat

  const NilUuid: Uuid := 0

  /** Go's int64. */
  type Int64 = x: int | -0x8000_0000_0000_0000 <= x < 0x8000_0000_0000_0000

  /** What the database driver reports for a failed statement. */
  datatype DbFailure =
    | NoRows           // a lookup found nothing
    | UniqueViolation  // an insert hit a primary-key or unique constraint
    | Unavailable      // any other failure of the database

  datatype Error =
    | Plain(text: string)                  // errors.New, or fmt.Errorf without %w
    | Wrapped(context: string, inner: Error) // fmt.Errorf("<context>: %w", inner)
    | Driver(failure: DbFailure)           // an error returned by a store query
    | App(app: AppError)                   // an *AppError

  datatype AppError = AppError(err: Error, message: string, statusCode: int)
  {
    /** AppError.Error: the message, or the wrapped error's text when the message is empty. */
    function Error(): (text: string)
      decreases this, 0
      ensures message != "" ==> text == message
      ensures message == "" ==> text == ErrorText(err)
    {
      if message != "" then message else ErrorText(err)
    }

    /** AppError.Unwrap: the wrapped error. */
    function Unwrap(): (r: Error)
      ensures r == err
    {
      err
    }
  }

  /** The text Go's `err.Error()` gives for each kind of error value. */
  function ErrorText(e: Error): string
    decreases e, 1
  {
    match e
    case Plain(t) => t
    case Wrapped(c, inner) => c + ": " + ErrorText(inner)
    case Driver(f) => DriverText(f)
    case App(a) => a.Error()
  }

  /** The driver's wording is not part of this model; these stand in for it. */
  function DriverText(f: DbFailure): string
  {
    match f
    case NoRows => "no rows in result set"
    case UniqueViolation => "duplicate key value violates unique constraint"
    case Unavailable => "database unavailable"
  }

  /**
   * errors.As for *AppError: the first AppError met while unwrapping,
   * which is what the HTTP handlers read the status code from.
   */
  function AsAppError(e: Error): (r: Option<AppError>)
    ensures e.App? ==> r == Some(e.app)
    ensures r.Some? ==> e.App? || e.Wrapped?
  {
    match e
    case App(a) => Some(a)
    case Wrapped(_, inner) => AsAppError(inner)
    case _ => None
  }

  /** NewAppError: an AppError holding exactly the given error, message and status. */
  function NewAppError(err: Error, message: string, statusCode: int): (a: AppError)
    ensures a.Unwrap() == err && a.message == message && a.statusCode == statusCode
    ensures message != "" ==> a.Error() == message
    ensures message == "" ==> a.Error() == ErrorText(err)
  {
    AppError(err, message, statusCode)
  }

  // HTTP status codes used by the error table
  const StatusBadRequest := 400
  const StatusNotFound := 404
  const StatusConflict := 409
  const StatusInternalServerError := 500

  const ErrInvalidBody: Error := Plain("invalid request body")
  const ErrInvalidInput: Error := Plain("invalid input")

  const ErrDuplicateTransaction := AppError(Plain("transaction with this ID already exists"),
    "transaction with this ID already exists", StatusConflict)
  const ErrWalletNotFound := AppError(Plain("wallet not found"), "wallet not found", StatusNotFound)
  const ErrInsufficientBalance := AppError(Plain("insufficient balance"), "insufficient balance", StatusBadRequest)
  const ErrInvalidBalance := AppError(Plain("invalid balance type"), "invalid balance type", StatusInternalServerError)
  const ErrTransactionFailed := AppError(Plain("transaction failed"), "transaction failed", StatusInternalServerError)
  const ErrBalanceRetrievalFailed := AppError(Plain("failed to retrieve balance"),
    "failed to retrieve balance", StatusInternalServerError)

  /** The fixed error table: each entry's status, and its text equals its wrapped error's text. */
  lemma ErrorTable()
    ensures ErrDuplicateTransaction.statusCode == 409 && ErrWalletNotFound.statusCode == 404
    ensures ErrInsufficientBalance.statusCode == 400
    ensures ErrInvalidBalance.statusCode == 500 && ErrTransactionFailed.statusCode == 500
    ensures ErrBalanceRetrievalFailed.statusCode == 500
    ensures forall a :: a in {ErrDuplicateTransaction, ErrWalletNotFound, ErrInsufficientBalance,
                              ErrInvalidBalance, ErrTransactionFailed, ErrBalanceRetrievalFailed}
              ==> a.Error() == a.message == ErrorText(a.Unwrap())
  {
  }

  // models/wallet.go and models/auth.go

  /** The body of a top-up or spend request. */
  datatype WalletRequest = WalletRequest(txnId: Uuid, amount: Int64)

  /** A wallet request together with the authenticated user and the user's wallet. */
  datatype WalletServiceParams = WalletServiceParams(txnId: Uuid, amount: Int64, userId: Uuid, walletId: Uuid)

  datatype WalletResponse = WalletResponse(message: string, balance: int)

  /** The body of a signup or signin request. */
  datatype UserParams = UserParams(username: string, password: string)

  /** Wallet id and balance are present only in a signup response (`omitempty` pointers). */
  datatype UserResponse = UserResponse(id: Uuid, username: string, walletId: Option<Uuid>,
                                       balance: Option<int>, accessToken: string)
}
