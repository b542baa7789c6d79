/**
 * The exception channel of the source. A JavaScript `throw` becomes a value: an operation that
 * may throw returns `Try<T>`, an operation without a result returns `Outcome`.
 */
module Throwing {
  import opened DomainErrors

  /**
   * What can be thrown: a DomainError, a plain `Error` with a message, or a failure inside the
   * persistence layer whose message is not part of the modelled code.
   */
  datatype Thrown =
    | DomainThrown(error: DomainError)
    | ErrorThrown(message: string)
    | InfrastructureThrown

  datatype Try<+T> = Returned(value: T) | Threw(thrown: Thrown) {

    predicate IsFailure() {
      Threw?
    }

    function PropagateFailure<U>(): Try<U>
      requires Threw?
    {
      Threw(thrown)
    }

    function Extract(): T
      requires Returned?
    {
      value
    }
  }

  datatype Outcome = Pass | Throw(thrown: Thrown)

  /** `throw DomainError.badRequest(message)` */
  function BadRequestThrown(message: string): Thrown {
    DomainThrown(BadRequestError(message))
  }
}
