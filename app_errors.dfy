/** The sentinel errors of the server (`internal/errors`). */
module AppErrors {

  datatype AppError =
    // validation of request records
    | ErrFieldIDRequired
    | ErrFieldTypeInvalid
    | ErrFieldValueRequired
    | ErrFieldDeltaRequired
    // business logic of the metrics service
    | ErrMetricNotFound
    | ErrUnknownMetricType
    | ErrGaugeValueRequired
    | ErrCounterDeltaRequired
    | ErrEmptyMetrics
    | ErrMetricIDRequired
    | ErrInvalidMetricType
}
