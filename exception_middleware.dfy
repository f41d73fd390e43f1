/**
 * The fault translator (UserManagementApi/ErrorHandling/ExceptionMiddleware.cs):
 * a pipeline stage that lets a request through untouched unless the inner
 * handler throws, and then turns the exception into a JSON error response.
 */
module ExceptionMiddleware {
  import opened Common

  /**
   * The exceptions the translator distinguishes. Each variant stands for the
   * named .NET class and the classes derived from it (so `Argument` covers
   * `ArgumentNullException` too); `Other` is every remaining class.
   */
  datatype Exception =
    | KeyNotFound(message: string)
    | UnauthorizedAccess(message: string)
    | Authentication(message: string)
    | Argument(message: string)
    | Validation(message: string)
    | Aggregate(message: string, inner: seq<Exception>)
    | Other(message: string)

  const NotFound := 404
  const Unauthorized := 401
  const BadRequest := 400
  const InternalServerError := 500

  /** The status for an exception: the first arm of the switch whose type matches. */
  function StatusCodeFor(e: Exception): (code: int)
    ensures code in {NotFound, Unauthorized, BadRequest, InternalServerError}
    ensures code == NotFound <==> e.KeyNotFound?
    ensures code == Unauthorized <==> e.UnauthorizedAccess? || e.Authentication?
    ensures code == BadRequest <==> e.Argument? || e.Validation?
    ensures code == InternalServerError <==> e.Aggregate? || e.Other?
  {
    match e
    case KeyNotFound(_) => NotFound
    case UnauthorizedAccess(_) | Authentication(_) => Unauthorized
    case Argument(_) | Validation(_) => BadRequest
    case _ => InternalServerError
  }

  /** The JSON body written for a fault: StatusCode, Message and Errors. */
  datatype ErrorResponse = ErrorResponse(statusCode: int, message: string, errors: Option<seq<string>>)

  /** The messages of a list of exceptions, in order. */
  function Messages(es: seq<Exception>): (ms: seq<string>)
    ensures |ms| == |es|
    ensures forall i :: 0 <= i < |es| ==> ms[i] == es[i].message
  {
    if es == [] then [] else [es[0].message] + Messages(es[1..])
  }

  /**
   * The body for a fault. Its status is the one written to the response, its
   * message the exception's own; the error list holds the message of a
   * validation failure, the inner messages of an aggregate, and is null for
   * every other exception.
   */
  function ErrorBody(e: Exception): (body: ErrorResponse)
    ensures body.statusCode == StatusCodeFor(e)
    ensures body.message == e.message
    ensures e.Validation? ==> body.errors == Some([e.message])
    ensures e.Aggregate? ==> body.errors.Some? && |body.errors.value| == |e.inner|
    ensures e.Aggregate? ==> forall i :: 0 <= i < |e.inner| ==> body.errors.value[i] == e.inner[i].message
    ensures !e.Validation? && !e.Aggregate? ==> body.errors.None?
  {
    var errors :=
      if e.Validation? then Some([e.message])
      else if e.Aggregate? then Some(Messages(e.inner))
      else None;
    ErrorResponse(StatusCodeFor(e), e.message, errors)
  }

  /** An aggregate matches none of the specific arms, whatever it wraps. */
  lemma AggregateIsServerError(message: string, inner: seq<Exception>)
    ensures ErrorBody(Aggregate(message, inner)).statusCode == InternalServerError
    ensures ErrorBody(Aggregate(message, inner)).errors == Some(Messages(inner))
  {
  }

  /** An unclassified fault yields 500 and carries its message to the client. */
  lemma UnclassifiedFaultIsServerError(message: string)
    ensures ErrorBody(Other(message)) == ErrorResponse(InternalServerError, message, None)
  {
  }

  /** The part of the HTTP response the translator touches. */
  class HttpResponse {
    var statusCode: int
    var contentType: string
    var body: Option<ErrorResponse>

    constructor ()
      ensures statusCode == 200 && contentType == "" && body == None
    {
      statusCode, contentType, body := 200, "", None;
    }
  }

  /** Writes the error response for a fault. */
  method HandleException(response: HttpResponse, e: Exception)
    modifies response
    ensures response.contentType == "application/json"
    ensures response.statusCode == StatusCodeFor(e)
    ensures response.body == Some(ErrorBody(e))
    ensures response.body.value.statusCode == response.statusCode
  {
    var statusCode := StatusCodeFor(e);
    response.contentType := "application/json";
    response.statusCode := statusCode;
    response.body := Some(ErrorBody(e));
  }

  /**
   * Runs the request through the rest of the pipeline, whose outcome is
   * `thrown`: the exception it raised, if any. A request that completes is
   * left as the inner handler wrote it; a fault is translated.
   */
  method Invoke(response: HttpResponse, thrown: Option<Exception>)
    modifies response
    ensures thrown.None? ==> unchanged(response)
    ensures thrown.Some? ==>
      && response.contentType == "application/json"
      && response.statusCode == StatusCodeFor(thrown.value)
      && response.body == Some(ErrorBody(thrown.value))
  {
    match thrown
    case None =>
    case Some(e) => HandleException(response, e);
  }
}
