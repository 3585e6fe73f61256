/** The global error-handling middleware and the 404 route handler: which
    status code, message and stack trace reach the client for a thrown error. */
module ErrorHandler {
  import opened Wrappers
  import opened Errors

  /** What reaches the handler: an application error, or any other `Error`
      carrying only its message. */
  datatype Thrown = App(app: AppError) | Plain(plainMessage: string) {
    function Message(): string {
      match this
      case App(e) => e.Message()
      case Plain(m) => m
    }
  }

  /** The JSON body: `status`, `message` and, when present, `stack`. */
  datatype ErrorBody = ErrorBody(status: string, message: string, stack: Option<string>)

  datatype ErrorResponse = ErrorResponse(statusCode: int, body: ErrorBody)

  const DefaultMessage := "Internal Server Error"

  /** `errorHandler(err, …)`: `stack` is the error's `stack` property (it may be
      undefined) and `nodeEnv` the `NODE_ENV` environment variable. */
  function HandleError(err: Thrown, stack: Option<string>, nodeEnv: Option<string>): (res: ErrorResponse)
    ensures err.App? ==> res.statusCode == err.app.StatusCode()
    ensures err.Plain? ==> res.statusCode == 500
    ensures res.body.status == "error"
    ensures res.body.message != ""
    ensures err.Message() != "" ==> res.body.message == err.Message()
    ensures err.Message() == "" ==> res.body.message == DefaultMessage
    ensures res.body.stack.Some? <==> nodeEnv == Some("development") && stack.Some?
    ensures res.body.stack.Some? ==> res.body.stack == stack
  {
    var statusCode := if err.App? then err.app.StatusCode() else 500;
    var message := if err.Message() != "" then err.Message() else DefaultMessage;
    var shownStack := if nodeEnv == Some("development") then stack else None;
    ErrorResponse(statusCode, ErrorBody("error", message, shownStack))
  }

  /** `notFoundHandler`: the error it forwards for an unmatched route. */
  function NotFound(originalUrl: string): (err: Thrown)
    ensures err.App? && err.app.StatusCode() == 404
    ensures err.Message() == "Route " + originalUrl + " not found"
  {
    App(AppError("Route " + originalUrl + " not found", 404))
  }

  /** An unmatched route ends as a 404 whose message names the route, with the
      stack hidden outside development. */
  lemma UnmatchedRouteResponse(originalUrl: string, stack: Option<string>, nodeEnv: Option<string>)
    ensures var res := HandleError(NotFound(originalUrl), stack, nodeEnv);
            && res.statusCode == 404
            && res.body.message == "Route " + originalUrl + " not found"
            && (nodeEnv != Some("development") ==> res.body.stack.None?)
  {
    assert |NotFound(originalUrl).Message()| > 0;
  }

  /** A subclass whose message is fixed by its constructor reaches the client
      with its own status code and message, never as a 500. */
  lemma SubclassResponse(err: AppError, stack: Option<string>, nodeEnv: Option<string>)
    requires err.HasFixedMessage()
    ensures var res := HandleError(App(err), stack, nodeEnv);
            && 400 <= res.statusCode < 500
            && res.statusCode == err.StatusCode()
            && res.body.message == err.Message()
  {
    FixedMessagesNonEmpty(err);
  }

  /** A response is a server error exactly when a foreign error or a base
      `AppError` built with a 5xx code was thrown: every subclass reaches the
      client with its 4xx code, whatever its message. */
  lemma ServerErrorStatus(t: Thrown, stack: Option<string>, nodeEnv: Option<string>)
    ensures var res := HandleError(t, stack, nodeEnv);
            && (res.statusCode >= 500 <==> t.Plain? || (t.app.AppError? && t.app.code >= 500))
            && (t.App? && !t.app.AppError? ==> 400 <= res.statusCode < 500)
  {
  }
}
