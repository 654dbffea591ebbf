/**
 * `asyncHandler` (src/utils/asyncHandler.js): wraps a request handler so that
 * a rejected handler is answered with status 500 and `{success: false, message}`.
 * The promise machinery is modelled as the handler's settled outcome.
 */
module AsyncHandler {
  import opened ApiTypes

  /** How the wrapped handler's promise settles: with the response it wrote, or with what it threw. */
  datatype Settled<P> =
    | Resolved(response: Response<P>)
    | Rejected(error: Thrown)

  /** The response the client receives once the wrapped handler has settled. */
  function Respond<P>(settled: Settled<P>): (r: Response<P>)
    ensures settled.Rejected? ==> r.status == 500
    ensures settled.Rejected? ==> r.body == ErrorBody(false, settled.error.message)
    ensures settled.Resolved? ==> r == settled.response
  {
    match settled
    case Resolved(response) => response
    case Rejected(err) => Response(500, ErrorBody(false, err.message))
  }

  /** The status an `ApiError` carries never reaches the client: only its message does. */
  lemma CarriedStatusIgnored<P>(e1: Thrown, e2: Thrown)
    requires e1.message == e2.message
    ensures Respond<P>(Rejected(e1)) == Respond<P>(Rejected(e2))
  {
  }

  /** A response with status other than 500 or with a success body is one the handler wrote itself. */
  lemma Non500IsHandlerResponse<P>(settled: Settled<P>)
    requires Respond(settled).status != 500 || !Respond(settled).body.ErrorBody?
    ensures settled.Resolved? && Respond(settled) == settled.response
  {
  }
}
