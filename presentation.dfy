/**
 * How a command's Result leaves the HTTP layer (src/shared/application/presentation/base.controller.ts):
 * a success returns its value, a failure is turned into one of four NestJS built-in exceptions.
 *
 * The body a built-in exception carries is built by the NestJS framework (HttpException.createBody),
 * which is not among the repository's files; `Raise` states that construction as an assumption so that
 * the exception filter can be applied to what the controller throws.
 */
module Presentation {
  import opened Optional
  import opened DomainErrors
  import opened Results

  /** The `message` field of an object payload: one string or a list of strings. */
  datatype MessageField = OneMessage(text: string) | ManyMessages(texts: seq<string>)

  /**
   * What `exception.getResponse()` returns: a bare string, or an object with `message`, an optional
   * `error` caption and an optional `errors` list.
   */
  datatype Payload =
    | TextPayload(text: string)
    | ObjectPayload(message: MessageField, error: Option<string>, errors: Option<seq<string>>)

  datatype HttpException = HttpException(status: int, payload: Payload)

  /** The built-in exception classes the controller throws. */
  datatype BuiltIn = ConflictException | NotFoundException | BadRequestException | InternalServerErrorException {

    function Status(): int {
      match this
      case ConflictException => 409
      case NotFoundException => 404
      case BadRequestException => 400
      case InternalServerErrorException => 500
    }

    function Description(): string {
      match this
      case ConflictException => "Conflict"
      case NotFoundException => "Not Found"
      case BadRequestException => "Bad Request"
      case InternalServerErrorException => "Internal Server Error"
    }
  }

  /** The argument handed to a built-in exception's constructor. */
  datatype ExceptionArg = TextArg(text: string) | ObjectArg(message: string, errors: Option<seq<string>>)

  /**
   * `new <kind>(arg)`: an empty string becomes the class's description, any other string is wrapped
   * with the description as `error`, and an object is the payload itself.
   */
  function Raise(kind: BuiltIn, arg: ExceptionArg): (e: HttpException)
    ensures e.status == kind.Status()
    ensures e.payload.ObjectPayload?
    ensures arg.TextArg? && arg.text != "" ==>
              e.payload == ObjectPayload(OneMessage(arg.text), Some(kind.Description()), None)
    ensures arg.ObjectArg? ==> e.payload == ObjectPayload(OneMessage(arg.message), None, arg.errors)
  {
    match arg
    case TextArg(text) =>
      if text == "" then HttpException(kind.Status(), ObjectPayload(OneMessage(kind.Description()), None, None))
      else HttpException(kind.Status(), ObjectPayload(OneMessage(text), Some(kind.Description()), None))
    case ObjectArg(message, errors) =>
      HttpException(kind.Status(), ObjectPayload(OneMessage(message), None, errors))
  }

  /** The exception class `handleError` picks for each error kind. */
  function ExceptionKind(t: ErrorType): BuiltIn {
    match t
    case Conflict => ConflictException
    case NotFound => NotFoundException
    case Validation => BadRequestException
    case BadRequest => BadRequestException
    case _ => InternalServerErrorException
  }

  /** `handleError`: the exception thrown for a failed Result; it never returns normally. */
  function HandleError(error: DomainError): (e: HttpException)
    ensures error.errorType == Conflict ==> e == Raise(ConflictException, TextArg(error.ErrorMessage()))
    ensures error.errorType == NotFound ==> e == Raise(NotFoundException, TextArg(error.ErrorMessage()))
    ensures error.errorType == Validation ==>
              e == Raise(BadRequestException, ObjectArg(error.ErrorMessage(), error.errors))
    ensures error.errorType == BadRequest ==> e == Raise(BadRequestException, TextArg(error.ErrorMessage()))
    ensures error.errorType in {Unexpected, Forbidden, Unauthorized, TooManyRequests} ==>
              e == Raise(InternalServerErrorException, TextArg(error.ErrorMessage()))
  {
    var kind := ExceptionKind(error.errorType);
    if error.errorType == Validation then Raise(kind, ObjectArg(error.ErrorMessage(), error.errors))
    else Raise(kind, TextArg(error.ErrorMessage()))
  }

  /** What a controller action produces: the value to serialise, or an exception. */
  datatype Handled<+T> = Respond(value: T) | Raised(exception: HttpException)

  /** `handleResult`: a success gives back its value, a failure raises and gives no value. */
  function HandleResult<T>(result: Result<T, DomainError>): (r: Handled<T>)
    ensures r.Respond? <==> result.IsSuccess()
    ensures result.IsSuccess() ==> r.value == result.v
    ensures result.IsFailure() ==> r.exception == HandleError(result.e)
  {
    match result
    case Success(v) => Respond(v)
    case Failure(e) => Raised(HandleError(e))
  }

  /**
   * Every failure becomes an HTTP error status: 500 exactly for the kinds that have no exception
   * class of their own, a 4xx status otherwise; and only a validation error keeps its list of messages.
   */
  lemma HandleErrorClassifies(error: DomainError)
    ensures var e := HandleError(error);
      && (e.status == 500 <==> error.errorType in {Unexpected, Forbidden, Unauthorized, TooManyRequests})
      && (e.status != 500 ==> 400 <= e.status < 500)
      && (e.payload.errors.Some? ==> error.errorType == Validation && e.payload.errors == error.errors)
  {
  }
}
