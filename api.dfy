/** Error values and result wrappers used by the controller.
    `ApiError` stands for the application's `ApiException(message, httpStatus)`:
    every failure the controller raises carries a message and an HTTP status. */
module Api {

  /** HTTP status codes the controller uses. */
  const BadRequest: int := 400
  const NotFound: int := 404

  datatype ApiError = ApiError(message: string, status: int)

  /** A Java reference that may be null. */
  datatype Option<+T> = None | Some(value: T)

  /** The outcome of a handler that returns a value or throws an `ApiException`. */
  datatype Result<+T> = Success(value: T) | Failure(error: ApiError)

  /** The outcome of a `void` check that may throw an `ApiException`. */
  datatype Outcome = Pass | Fail(error: ApiError)
}
