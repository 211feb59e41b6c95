/**
 * The Python error middleware: a handler's response passes through unchanged;
 * a raised exception is classified and answered with the uniform error
 * envelope. Only the application error may add `details`, and an unrecognised
 * exception's text never reaches the body.
 */
module PyErrorMiddleware {
  import opened Wrappers
  import opened Json
  import opened Http
  import opened PyRoutes
  import Text

  const InternalErrorMessage := "Internal Server Error"

  /** The envelope for an application error; `details` is kept only when it is truthy. */
  function AppErrorResponse(err: AppError): (r: Response)
    ensures IsErrorEnvelope(r) && r.status == err.statusCode && r.body.error.message == err.message
    ensures r.body.error.details.Some? <==> err.details.Some? && PyTruthy(err.details.value)
    ensures r.body.error.details.Some? ==> r.body.error.details == err.details
  {
    var details := if err.details.Some? && PyTruthy(err.details.value) then err.details else None;
    Response(err.statusCode, ErrorBody(ApiError(err.message, err.statusCode, details)))
  }

  function ErrorHandler(o: PyOutcome): (r: Response)
    ensures o.Returned? ==> r == o.response
    ensures o.Raised? ==> IsErrorEnvelope(r)
    ensures o.Raised? && o.exception.RaisedAppError? ==>
              r == AppErrorResponse(o.exception.app)
    ensures o.Raised? && o.exception.RaisedValueError? ==>
              && r.status == (if Text.Contains(o.exception.message, "not found") then 404 else 400)
              && r.body.error.message == o.exception.message
              && r.body.error.details.None?
    ensures o.Raised? && o.exception.RaisedOther? ==>
              r == Response(500, ErrorBody(ApiError(InternalErrorMessage, 500, None)))
  {
    match o
    case Returned(resp) => resp
    case Raised(RaisedAppError(err)) => AppErrorResponse(err)
    case Raised(RaisedValueError(msg)) =>
      var status := if Text.Contains(msg, "not found") then 404 else 400;
      Response(status, ErrorBody(ApiError(msg, status, None)))
    case Raised(RaisedOther(_)) =>
      Response(500, ErrorBody(ApiError(InternalErrorMessage, 500, None)))
  }

  /** An unrecognised exception's own text appears in the response only if it is the fixed message itself. */
  lemma InternalErrorsAreRedacted(message: string)
    ensures var r := ErrorHandler(Raised(RaisedOther(message)));
            r.status == 500 && (r.body.error.message == message <==> message == InternalErrorMessage)
  {
  }
}
