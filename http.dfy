/**
 * The vocabulary every controller shares: the caller's identity as the bearer
 * token carries it, and the two ways a request handler ends without success —
 * it answers with a status and an error text itself, or it passes an exception
 * on to the error middleware with `next(err)`.
 */
module Http {
  import opened Wrappers

  /** A user's role. */
  datatype Role = Customer | Agent | Admin

  /** The claims of an access token, and so the identity of `req.user`. */
  datatype Claims = Claims(userId: nat, role: Role)

  /** An exception object: the optional `statusCode` property and `message`. */
  datatype ThrownError = ThrownError(statusCode: Option<int>, message: string)

  datatype Failure =
    | Reply(status: int, message: string)   // `res.status(status).json({success: false, data: null, error: message})`
    | Raised(error: ThrownError)            // `next(err)`

  datatype Result<+T> = Ok(value: T) | Err(failure: Failure)

  /** The uniform JSON envelope `{success, data, error}`; `None` stands for `null`. */
  datatype Envelope<+T> = Envelope(success: bool, data: Option<T>, error: Option<string>)

  datatype Response<+T> = Response(status: int, body: Envelope<T>)

  const NotFound: Failure := Reply(404, "Ticket not found")
  const AccessDenied: Failure := Reply(403, "Access denied")
}
