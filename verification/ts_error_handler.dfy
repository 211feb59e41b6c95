/**
 * The Express error handler and the fallback for unmatched routes. Unlike the
 * Python middleware, any error's own message is exposed; only an empty message
 * falls back to the fixed text.
 */
module TsErrorHandler {
  import opened Wrappers
  import opened Json
  import opened Http
  import Text

  /** What reaches `next(err)`: an application error or any other `Error`. */
  datatype TsError = ThrownAppError(app: AppError) | ThrownError(message: string) {
    function Message(): string {
      match this
      case ThrownAppError(app) => app.message
      case ThrownError(message) => message
    }
  }

  /** A controller either sends a response or passes an error to `next`. */
  datatype TsOutcome = Sent(response: Response) | Next(error: TsError)

  const InternalErrorMessage := "Internal Server Error"

  /**
   * The status is the application error's own code and 500 for anything else;
   * the message is the error's, or the fixed text when that is empty; `details`
   * appear only for an application error whose details are truthy.
   */
  function ErrorHandler(err: TsError): (r: Response)
    ensures IsErrorEnvelope(r)
    ensures r.status == (if err.ThrownAppError? then err.app.statusCode else 500)
    ensures err.Message() != "" ==> r.body.error.message == err.Message()
    ensures err.Message() == "" ==> r.body.error.message == InternalErrorMessage
    ensures r.body.error.details.Some? <==>
              err.ThrownAppError? && err.app.details.Some? && JsTruthy(err.app.details.value)
    ensures r.body.error.details.Some? ==> r.body.error.details == err.app.details
  {
    var status := if err.ThrownAppError? then err.app.statusCode else 500;
    var message := if err.Message() != "" then err.Message() else InternalErrorMessage;
    var details :=
      if err.ThrownAppError? && err.app.details.Some? && JsTruthy(err.app.details.value)
      then err.app.details else None;
    Response(status, ErrorBody(ApiError(message, status, details)))
  }

  /**
   * The answer to a request no route matched: 404 in the error envelope, no
   * details, and a message that names the method and the path and says "not found".
   */
  function NotFoundHandler(httpMethod: string, path: string): (r: Response)
    ensures r.status == 404 && IsErrorEnvelope(r) && r.body.error.details.None?
    ensures Text.Contains(r.body.error.message, httpMethod)
    ensures Text.Contains(r.body.error.message, path)
    ensures Text.Contains(r.body.error.message, "not found")
    ensures r.body.error.message == "Route " + httpMethod + " " + path + " not found"
  {
    var message := "Route " + httpMethod + " " + path + " not found";
    Text.ContainsInfix("Route ", httpMethod, " " + path + " not found");
    assert message == "Route " + httpMethod + (" " + path + " not found");
    Text.ContainsInfix("Route " + httpMethod + " ", path, " not found");
    assert message == "Route " + httpMethod + " " + path + " not found";
    Text.ContainsInfix("Route " + httpMethod + " " + path + " ", "not found", "");
    assert message == ("Route " + httpMethod + " " + path + " ") + "not found" + "";
    Response(404, ErrorBody(ApiError(message, 404, None)))
  }

  /** What the client receives for a controller outcome: the sent response, or the error handler's answer. */
  function Respond(o: TsOutcome): (r: Response)
    ensures o.Sent? ==> r == o.response
    ensures o.Next? ==> r == ErrorHandler(o.error)
  {
    match o
    case Sent(resp) => resp
    case Next(err) => ErrorHandler(err)
  }
}
