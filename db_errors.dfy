/** Errors coming back from the PostgreSQL driver, and `isRetriableDBError`. */
module DbErrors {

  /** A driver error: a server error carrying a SQLSTATE code, any other failure (network,
      driver, plain `errors.New`), or one of those wrapped with context by `fmt.Errorf("%w")`. */
  datatype DbError =
    | PgError(code: string)
    | OtherError(msg: string)
    | Wrapped(context: string, inner: DbError)

  /** SQLSTATE codes named in the classifier's table (class 08, connection exception). */
  const ConnectionException := "08000"
  const ConnectionDoesNotExist := "08003"
  const ConnectionFailure := "08006"
  const SQLClientUnableToEstablishSQLConnection := "08001"
  const SQLServerRejectedEstablishmentOfSQLConnection := "08004"
  const TransactionResolutionUnknown := "08007"
  /** `numeric_value_out_of_range`, raised when `counters.delta + $2` leaves BIGINT. */
  const NumericValueOutOfRange := "22003"

  const RetriableCodeTable: map<string, bool> := map[
    ConnectionException := true,
    ConnectionDoesNotExist := true,
    ConnectionFailure := true,
    SQLClientUnableToEstablishSQLConnection := true,
    SQLServerRejectedEstablishmentOfSQLConnection := true,
    TransactionResolutionUnknown := true
  ]

  const RetriableCodes: set<string> := {"08000", "08003", "08006", "08001", "08004", "08007"}

  /** The error `errors.As(err, &pgErr)` finds: the innermost error of the wrap chain. */
  function Unwrapped(e: DbError): (r: DbError)
    ensures !r.Wrapped?
  {
    if e.Wrapped? then Unwrapped(e.inner) else e
  }

  /** `isRetriableDBError`: the error is (or wraps) a server error whose code is one of the
      six connection codes. */
  function IsRetriableDBError(e: DbError): bool
  {
    match e
    case PgError(code) => code in RetriableCodeTable && RetriableCodeTable[code]
    case OtherError(_) => false
    case Wrapped(_, inner) => IsRetriableDBError(inner)
  }

  /** The classifier looks through every wrapping layer and accepts exactly the six
      connection codes, all of class 08. */
  lemma {:induction false} RetriableExactlyConnectionCodes(e: DbError)
    ensures IsRetriableDBError(e) <==> Unwrapped(e).PgError? && Unwrapped(e).code in RetriableCodes
    ensures IsRetriableDBError(e) ==> Unwrapped(e).code[..2] == "08"
  {
    if e.Wrapped? {
      RetriableExactlyConnectionCodes(e.inner);
    }
  }

  /** A numeric overflow, a serialization failure and a plain error are never retried;
      a connection failure is, wrapped or not. */
  lemma ClassifierExamples()
    ensures !IsRetriableDBError(PgError(NumericValueOutOfRange))
    ensures !IsRetriableDBError(PgError("40001"))
    ensures !IsRetriableDBError(PgError("08"))
    ensures !IsRetriableDBError(OtherError("non-retriable error"))
    ensures IsRetriableDBError(PgError(ConnectionFailure))
    ensures IsRetriableDBError(Wrapped("BatchUpdate", Wrapped("tx", PgError(TransactionResolutionUnknown))))
    ensures !IsRetriableDBError(Wrapped("BatchUpdate", OtherError("driver: bad connection")))
  {
  }
}
