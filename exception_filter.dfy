/**
 * The API's exception filter: every exception a handler raises becomes a
 * JSON response with an HTTP status code (section 15 of RFC 9110), and is
 * marked handled.
 */
module ExceptionFilter {
  import opened Wrappers
  import opened Errors

  const Status400BadRequest: int := 400
  const Status401Unauthorized: int := 401
  const Status403Forbidden: int := 403
  const Status404NotFound: int := 404
  const Status409Conflict: int := 409
  const Status500InternalServerError: int := 500

  datatype ResponseBody =
    | MessageResponse(message: string)
    | GameIdResponse(message: string, gameId: int)

  datatype JsonResult = JsonResult(value: ResponseBody, statusCode: int)

  /** The response for an exception: its kind picks the status, domain exceptions keep their message. */
  function ResultFor(e: Error): (r: JsonResult)
    ensures 400 <= r.statusCode < 500 <==> e.IsDomain()
    ensures r.statusCode == Status500InternalServerError <==> !e.IsDomain()
    ensures e.IsDomain() ==> r.value.message == e.message
    ensures !e.IsDomain() ==> r.value == MessageResponse("An error occurred")
    ensures r.value.GameIdResponse? <==> e.BusyUser?
    ensures e.BusyUser? ==> r.statusCode == Status409Conflict && r.value.gameId == e.gameId
    ensures e.Unauthorized? <==> r.statusCode == Status401Unauthorized
    ensures e.GameNotFound? <==> r.statusCode == Status404NotFound
    ensures e.NotYourTurn? <==> r.statusCode == Status403Forbidden
    ensures e.Domain? <==> r.statusCode == Status400BadRequest
  {
    match e
    case Unauthorized(message) => JsonResult(MessageResponse(message), Status401Unauthorized)
    case BusyUser(message, gameId) => JsonResult(GameIdResponse(message, gameId), Status409Conflict)
    case GameNotFound(message) => JsonResult(MessageResponse(message), Status404NotFound)
    case NotYourTurn(message) => JsonResult(MessageResponse(message), Status403Forbidden)
    case Domain(message) => JsonResult(MessageResponse(message), Status400BadRequest)
    case Unexpected(_) => JsonResult(MessageResponse("An error occurred"), Status500InternalServerError)
  }

  /** The exception being handled, the response set for it and whether it is handled. */
  class ExceptionContext {
    const exception: Error
    var result: Option<JsonResult>
    var exceptionHandled: bool

    constructor (exception: Error)
      ensures this.exception == exception && result.None? && !exceptionHandled
    {
      this.exception := exception;
      result := None;
      exceptionHandled := false;
    }
  }

  class HttpResponseExceptionFilter {
    constructor ()
    {
    }

    /** Sets the response for the context's exception, tested most specific kind first, and marks it handled. */
    method OnException(context: ExceptionContext)
      modifies context
      ensures context.result == Some(ResultFor(context.exception))
      ensures context.exceptionHandled
    {
      if context.exception.Unauthorized? {
        context.result := Some(JsonResult(MessageResponse(context.exception.message), Status401Unauthorized));
        context.exceptionHandled := true;
        return;
      }
      if context.exception.BusyUser? {
        context.result := Some(JsonResult(GameIdResponse(context.exception.message, context.exception.gameId), Status409Conflict));
        context.exceptionHandled := true;
        return;
      }
      if context.exception.GameNotFound? {
        context.result := Some(JsonResult(MessageResponse(context.exception.message), Status404NotFound));
        context.exceptionHandled := true;
        return;
      }
      if context.exception.NotYourTurn? {
        context.result := Some(JsonResult(MessageResponse(context.exception.message), Status403Forbidden));
        context.exceptionHandled := true;
        return;
      }
      if context.exception.IsDomain() {
        context.result := Some(JsonResult(MessageResponse(context.exception.message), Status400BadRequest));
        context.exceptionHandled := true;
        return;
      }
      context.result := Some(JsonResult(MessageResponse("An error occurred"), Status500InternalServerError));
      context.exceptionHandled := true;
    }
  }
}
