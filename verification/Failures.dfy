/** The errors a statement can raise and the errors the service makes of them. */
module Failures {

  /** SQLSTATE codes, as far as the service tells them apart. */
  datatype SqlState =
    | S40001  // could not serialize access
    | S25P02  // current transaction is aborted
    | S23505  // unique violation
    | S23503  // foreign key violation
    | S23502  // not null violation
    | S23514  // check violation
    | S23001  // restrict violation
    | S23000  // integrity violation
    | OtherState(text: string)

  const NUMERIC_OUT_OF_RANGE: SqlState := OtherState("22003")
  const DEADLOCK_DETECTED: SqlState := OtherState("40P01")

  /** What a failing statement reports: an error of the server, or a broken connection. */
  datatype DbError = Server(state: SqlState) | ConnectionLost

  /** The predeclared errors of the service. */
  datatype Sentinel =
    | BadRequest | Unauthorized | Forbidden | NotFound | NotAcceptable | Conflict
    | UnprocessableEntity | Internal | ServiceUnavailable
    | TxConcurrentExec
    | StoreNoRows | StoreUniqueViolation | StoreForeignKeyViolation | StoreCheckViolation
    | StoreNotNullViolation | StoreRestrictViolation | StoreIntegrityViolation

  /** The predeclared error each of the store errors is itself built from; the base errors are built from none. */
  function BaseOf(s: Sentinel): Sentinel {
    match s
    case TxConcurrentExec | StoreUniqueViolation => Conflict
    case StoreNoRows => NotFound
    case StoreForeignKeyViolation | StoreCheckViolation | StoreNotNullViolation
       | StoreRestrictViolation | StoreIntegrityViolation => BadRequest
    case _ => s
  }

  function SentinelFor(state: SqlState): Sentinel {
    match state
    case S40001 | S25P02 => TxConcurrentExec
    case S23505 => StoreUniqueViolation
    case S23503 => StoreForeignKeyViolation
    case S23502 => StoreNotNullViolation
    case S23514 => StoreCheckViolation
    case S23001 => StoreRestrictViolation
    case S23000 => StoreIntegrityViolation
    case OtherState(_) => Internal
  }

  /** The error a request ends with. */
  datatype Failure = From(sentinel: Sentinel) | NotEnoughFunds | AmountNotPositive

  /** A broken connection is no LogicError, so the use case wraps it in the internal error. */
  function FailureFor(error: DbError): Failure {
    match error
    case Server(state) => From(SentinelFor(state))
    case ConnectionLost => From(Internal)
  }

  datatype Result<+T> = Ok(value: T) | Err(error: Failure)
}
