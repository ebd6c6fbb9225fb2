/** The last Express middleware: it turns an exception passed to `next(err)` into a response. */
module ErrorMiddleware {
  import opened Wrappers
  import opened Http

  /**
   * `errorHandler(err, req, res, next)` with `process.env.NODE_ENV` passed in as
   * `nodeEnv`: the status is the error's own `statusCode` when that is truthy and
   * 500 otherwise; in production the text is always "Server Error".
   */
  function ErrorHandler<T>(err: ThrownError, nodeEnv: string): (r: Response<T>)
    ensures r.status != 0
    ensures err.statusCode.Some? && err.statusCode.value != 0 ==> r.status == err.statusCode.value
    ensures err.statusCode.None? || err.statusCode == Some(0) ==> r.status == 500
    ensures !r.body.success && r.body.data.None? && r.body.error.Some?
    ensures nodeEnv == "production" ==> r.body.error == Some("Server Error")
    ensures nodeEnv != "production" ==> r.body.error == Some(err.message)
  {
    var statusCode := if err.statusCode.Some? && err.statusCode.value != 0 then err.statusCode.value else 500;
    Response(statusCode, Envelope(false, None, Some(if nodeEnv == "production" then "Server Error" else err.message)))
  }

  /** In production two errors with the same status code give the same response, whatever their messages. */
  lemma ProductionConcealsMessage<T>(e1: ThrownError, e2: ThrownError)
    requires e1.statusCode == e2.statusCode
    ensures ErrorHandler<T>(e1, "production") == ErrorHandler<T>(e2, "production")
  {
  }

  /**
   * How a handler's outcome reaches the client: a success in the envelope with
   * the route's success status (201 when the handler created something, 200
   * otherwise), a direct reply as an envelope with no data and the reply's
   * text, and an exception through `errorHandler`.
   */
  function Render<T>(r: Result<T>, created: bool, nodeEnv: string): (resp: Response<T>)
    ensures resp.body.success <==> r.Ok?
    ensures r.Ok? ==> resp.status == (if created then 201 else 200) && resp.body.data == Some(r.value)
    ensures r.Ok? ==> resp.body.error.None?
    ensures !resp.body.success ==> resp.body.data.None? && resp.body.error.Some?
    ensures r.Err? && r.failure.Reply? ==> resp.status == r.failure.status && resp.body.error == Some(r.failure.message)
    ensures r.Err? && r.failure.Raised? ==> resp == ErrorHandler(r.failure.error, nodeEnv)
  {
    match r
    case Ok(v) => Response(if created then 201 else 200, Envelope(true, Some(v), None))
    case Err(Reply(status, message)) => Response(status, Envelope(false, None, Some(message)))
    case Err(Raised(e)) => ErrorHandler(e, nodeEnv)
  }
}
