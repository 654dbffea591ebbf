/**
 * The values the controller throws and writes: an `ApiError` (status code and
 * message), an error thrown by the JavaScript runtime or the database driver
 * (message only), and the HTTP response the client receives.
 */
module ApiTypes {

  /** Anything the handler can throw; every variant carries the `message` that `asyncHandler` reads. */
  datatype Thrown =
    | ApiError(statusCode: int, message: string)
    | RuntimeError(message: string)

  /** A JSON body: an `ApiResponse` envelope, or the `{success, message}` object written on failure. */
  datatype Body<P> =
    | ApiResponse(statusCode: int, data: P)
    | ErrorBody(success: bool, message: string)

  datatype Response<P> = Response(status: int, body: Body<P>)
}
