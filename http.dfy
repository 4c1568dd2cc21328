/** What an Express handler does with a request: it responds with a status
    code and a body, passes an error to `next(err)` (which includes an
    exception thrown inside a `catchAsync` handler), calls `next()` to hand
    the request on, or does none of these. */
module Http {
  import opened AppErrors

  datatype Outcome<B> =
    | Respond(statusCode: int, body: B)
    | NextError(error: ErrorRecord)
    | Next
    | NoResponse
}
