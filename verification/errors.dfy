/**
 * The error middleware: every failure a handler or gate raises becomes one
 * JSON error response.
 */
module ErrorMiddleware {
  import opened Wrappers
  import opened Http

  /**
   * The JSON body. `errors` is `None` when the key is absent: `JSON.stringify`
   * drops a key whose value is `undefined`.
   */
  datatype ErrorBody = ErrorBody(statusCode: int, message: string, errors: Option<seq<string>>, success: bool, data: Value)

  datatype ErrorResponse = ErrorResponse(status: int, body: ErrorBody)

  /**
   * `errorHandler`: an `ApiError` is answered with its own status, message,
   * `success` and `data`, and with `errors` taken from its `error` property;
   * anything else is a 500 with an empty error list, `success: false`,
   * `data: null` and the error's message, or a generic one when that is empty.
   */
  function ErrorHandler(err: Failure): (r: ErrorResponse)
    ensures r.body.statusCode == r.status
    ensures err.ApiError? ==> r.status == err.statusCode && r.body.message == err.message
                              && r.body.errors == err.error && r.body.success == err.success
                              && r.body.data == err.data
    ensures err.Thrown? ==> r.status == 500 && r.body.errors == Some([]) && !r.body.success && r.body.data == Null
    ensures err.Thrown? ==> r.body.message == if err.message == [] then "Internal Server Error" else err.message
  {
    match err
    case ApiError(status, message, error, success, data) =>
      ErrorResponse(status, ErrorBody(status, message, error, success, data))
    case Thrown(message) =>
      ErrorResponse(500, ErrorBody(500, if message == [] then "Internal Server Error" else message, Some([]), false, Null))
  }

  /** Reads an error body back as the `ApiError` it describes. */
  function BodyAsApiError(b: ErrorBody): (e: Failure)
    ensures e.ApiError?
  {
    ApiError(b.statusCode, b.message, b.errors, b.success, b.data)
  }

  /** Every property of an `ApiError` that the middleware reads reaches the client unchanged. */
  lemma ApiErrorRoundTrip(err: Failure)
    requires err.ApiError?
    ensures BodyAsApiError(ErrorHandler(err).body) == err
  {
  }

  /** A handler's `new ApiError(status, message)` reaches the client with that status and is never a success. */
  lemma RejectionStatus(status: int, message: string)
    ensures ErrorHandler(Error(status, message)).status == status
    ensures !ErrorHandler(Error(status, message)).body.success
    ensures ErrorHandler(Error(status, message)).body.message == message
    ensures ErrorHandler(Error(status, message)).body.errors.None?
  {
  }

  /** Only an `ApiError` can give a status other than 500. */
  lemma OnlyApiErrorsChooseStatus(err: Failure)
    requires ErrorHandler(err).status != 500
    ensures err.ApiError?
  {
  }
}
