/**
 * The classification part of the global exception filter
 * (src/shared/application/filters/global-exception.filter.ts): whatever escapes a request becomes a
 * status code, a message and a list of messages, sent as one JSON body. Logging and the Express write
 * are left out; the request path and the timestamp are inputs.
 */
module ExceptionFilter {
  import opened Optional
  import opened DomainErrors
  import opened Throwing
  import opened Presentation

  const DefaultHttpMessage := "An error occurred"
  const InternalErrorMessage := "Internal Server Error"
  const InternalErrorDetail := "An unexpected error occurred. Please try again later."

  /** What `catch` can receive: a DomainError, an HttpException, or any other value. */
  datatype Caught = CaughtDomain(error: DomainError) | CaughtHttp(exception: HttpException) | CaughtOther

  /** How an exception thrown inside the application reaches the filter. */
  function CaughtOf(t: Thrown): (c: Caught)
    ensures c.CaughtDomain? <==> t.DomainThrown?
    ensures t.DomainThrown? ==> c.error == t.error
  {
    match t
    case DomainThrown(error) => CaughtDomain(error)
    case _ => CaughtOther
  }

  /** The three locals the filter computes. */
  datatype Classification = Classification(statusCode: int, message: string, errors: seq<string>)

  /** The `IErrorResponse` body. */
  datatype ErrorResponse = ErrorResponse(statusCode: int, timestamp: string, path: string, message: string,
                                         errors: seq<string>)

  /** The switch on a DomainError's kind; BadRequest reaches the default branch. */
  function DomainStatus(t: ErrorType): (s: int)
    ensures 400 <= s < 600
    ensures s >= 500 <==> t == Unexpected
  {
    match t
    case Conflict => 409
    case NotFound => 404
    case Forbidden => 403
    case Unauthorized => 401
    case TooManyRequests => 429
    case Validation => 422
    case Unexpected => 500
    case _ => 400
  }

  /** No two error kinds share a status, so the status alone tells the kind. */
  lemma DomainStatusInjective(a: ErrorType, b: ErrorType)
    ensures DomainStatus(a) == DomainStatus(b) ==> a == b
  {
  }

  /** The `errors` list of an object payload: the message array itself, or the one message wrapped. */
  function MessagesOf(m: MessageField): (r: seq<string>)
    ensures m.OneMessage? ==> r == [m.text]
    ensures m.ManyMessages? ==> r == m.texts
  {
    match m
    case OneMessage(text) => [text]
    case ManyMessages(texts) => texts
  }

  /** The `||` on the `error` caption: a missing or empty caption gives the default message. */
  function CaptionOf(error: Option<string>): (r: string)
    ensures error.Some? && error.value != "" ==> r == error.value
    ensures error.None? || error.value == "" ==> r == DefaultHttpMessage
  {
    match error
    case Some(text) => if text != "" then text else DefaultHttpMessage
    case None => DefaultHttpMessage
  }

  /** The if / else-if / else of `catch`, which fixes statusCode, message and errors. */
  function Classify(c: Caught): (r: Classification)
    ensures c.CaughtDomain? ==>
              && r.statusCode == DomainStatus(c.error.errorType)
              && r.message == c.error.ErrorMessage()
              && r.errors == c.error.errors.GetOr([c.error.ErrorMessage()])
    ensures c.CaughtHttp? ==> r.statusCode == c.exception.status
    ensures c.CaughtHttp? && c.exception.payload.TextPayload? ==>
              r.message == c.exception.payload.text && r.errors == [c.exception.payload.text]
    ensures c.CaughtHttp? && c.exception.payload.ObjectPayload? ==>
              r.message == CaptionOf(c.exception.payload.error) && r.errors == MessagesOf(c.exception.payload.message)
    ensures c.CaughtOther? ==> r == Classification(500, InternalErrorMessage, [InternalErrorDetail])
  {
    match c
    case CaughtDomain(error) =>
      Classification(DomainStatus(error.errorType), error.ErrorMessage(),
                     if error.errors.Some? then error.errors.value else [error.ErrorMessage()])
    case CaughtHttp(exception) =>
      (match exception.payload
       case TextPayload(text) => Classification(exception.status, text, [text])
       case ObjectPayload(message, error, _) => Classification(exception.status, CaptionOf(error), MessagesOf(message)))
    case CaughtOther => Classification(500, InternalErrorMessage, [InternalErrorDetail])
  }

  /**
   * `catch`: the status written to the response and the JSON body written with it. The body carries
   * exactly the status that is sent, and the request's path.
   */
  method Catch(exception: Caught, path: string, timestamp: string) returns (status: int, body: ErrorResponse)
    ensures status == body.statusCode == Classify(exception).statusCode
    ensures body.message == Classify(exception).message && body.errors == Classify(exception).errors
    ensures body.path == path && body.timestamp == timestamp
  {
    var classification := Classify(exception);
    var statusCode := classification.statusCode;
    body := ErrorResponse(statusCode, timestamp, path, classification.message, classification.errors);
    status := statusCode;
  }

  /**
   * The list of messages is never empty, unless the exception itself carried an empty list
   * (a validation DomainError with no details, or an object payload with an empty message array).
   */
  lemma ErrorsNonEmpty(c: Caught)
    ensures |Classify(c).errors| == 0 ==>
              || (c.CaughtDomain? && c.error.errors == Some([]))
              || (c.CaughtHttp? && c.exception.payload.ObjectPayload? && c.exception.payload.message == ManyMessages([]))
  {
  }

  /**
   * Anything thrown inside the application that is not a DomainError, including a failed commit,
   * is answered with 500 and the fixed apology, never with its own message.
   */
  lemma NonDomainThrownIsInternal(t: Thrown)
    requires !t.DomainThrown?
    ensures Classify(CaughtOf(t)) == Classification(500, InternalErrorMessage, [InternalErrorDetail])
  {
  }

  /**
   * The controller and the filter agree on the status exactly for Conflict, NotFound, BadRequest and
   * Unexpected; a validation error returned in a Result is sent as 400 while one thrown directly is
   * sent as 422, and Forbidden, Unauthorized and TooManyRequests returned in a Result are sent as 500.
   */
  lemma ControllerAndFilterAgree(error: DomainError)
    ensures HandleError(error).status == DomainStatus(error.errorType) <==>
              error.errorType in {Conflict, NotFound, BadRequest, Unexpected}
    ensures error.errorType == Validation ==> HandleError(error).status == 400 && DomainStatus(Validation) == 422
  {
  }

  /**
   * A failed Result that goes through the controller and then the filter: the response's message is
   * the exception's caption and its list is the domain message alone. For a validation error the
   * per-field messages are dropped and the message is the default one.
   */
  lemma ThroughControllerAndFilter(error: DomainError)
    requires error.ErrorMessage() != ""
    ensures var r := Classify(CaughtHttp(HandleError(error)));
      && r.statusCode == ExceptionKind(error.errorType).Status()
      && r.errors == [error.ErrorMessage()]
      && (error.errorType == Validation ==> r.message == DefaultHttpMessage)
      && (error.errorType != Validation ==> r.message == ExceptionKind(error.errorType).Description())
  {
  }
}
