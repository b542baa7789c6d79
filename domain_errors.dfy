/**
 * The closed taxonomy of domain error kinds and the DomainError record built by its named
 * factories (src/shared/domain/error-types.enum.ts, src/shared/domain/domain-error.ts).
 */
module DomainErrors {
  import opened Optional

  datatype ErrorType =
    | Conflict
    | NotFound
    | BadRequest
    | Validation
    | Unexpected
    | Forbidden
    | Unauthorized
    | TooManyRequests

  /** `errors` holds the per-field messages and is present only on validation errors. */
  datatype DomainError = DomainError(errorType: ErrorType, message: string, errors: Option<seq<string>>) {

    function ErrorMessage(): string {
      message
    }
  }

  function ConflictError(message: string): DomainError {
    DomainError(Conflict, message, None)
  }

  function TooManyRequestsError(message: string): DomainError {
    DomainError(TooManyRequests, message, None)
  }

  function NotFoundError(message: string): DomainError {
    DomainError(NotFound, message, None)
  }

  function BadRequestError(message: string): DomainError {
    DomainError(BadRequest, message, None)
  }

  function ValidationError(message: string, errors: seq<string>): DomainError {
    DomainError(Validation, message, Some(errors))
  }

  function UnexpectedError(message: string): DomainError {
    DomainError(Unexpected, message, None)
  }

  function UnauthorizedError(message: string): DomainError {
    DomainError(Unauthorized, message, None)
  }

  /** The kinds a factory can produce: every kind but Forbidden. */
  predicate FactoryKind(t: ErrorType) {
    t != Forbidden
  }

  /**
   * Each factory tags its error with the kind it is named after, keeps the message verbatim,
   * and only the validation factory attaches a list of messages.
   */
  lemma FactoriesTagTheirKind(message: string, errors: seq<string>)
    ensures ConflictError(message).errorType == Conflict
    ensures NotFoundError(message).errorType == NotFound
    ensures BadRequestError(message).errorType == BadRequest
    ensures ValidationError(message, errors).errorType == Validation
    ensures UnexpectedError(message).errorType == Unexpected
    ensures UnauthorizedError(message).errorType == Unauthorized
    ensures TooManyRequestsError(message).errorType == TooManyRequests
    ensures forall e <- [ConflictError(message), NotFoundError(message), BadRequestError(message),
                         UnexpectedError(message), UnauthorizedError(message),
                         TooManyRequestsError(message)] ::
              e.errors == None && e.ErrorMessage() == message && FactoryKind(e.errorType)
    ensures ValidationError(message, errors).errors == Some(errors)
    ensures ValidationError(message, errors).ErrorMessage() == message
  {
  }
}
