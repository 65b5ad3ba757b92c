/** What a request handler sends back to the client. */
module Http {

  /** One entry of express-validator's `errors.array()`: the field and its `withMessage` text. */
  datatype FieldError = FieldError(field: string, msg: string)

  /** An `ApiError(status, message)` as thrown by a handler. */
  datatype ApiError = ApiError(status: int, message: string)

  /** The reply: an `ApiResponse(status, data, message)` envelope, a thrown
      `ApiError` rendered by the error handler (also the shape of the session
      gates' `{message}` replies), or the validators' `{errors}` list with 400. */
  datatype Response<+T> =
    | Success(status: int, data: T, message: string)
    | Failure(status: int, message: string)
    | Invalid(errors: seq<FieldError>)
  {
    function Status(): int {
      match this
      case Success(s, _, _) => s
      case Failure(s, _) => s
      case Invalid(_) => 400
    }
  }
}
