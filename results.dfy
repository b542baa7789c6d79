/** The two-variant outcome of a command (src/shared/application/Result.ts). */
module Results {
  import opened Throwing

  const ValueOfFailureMessage := "Cannot retrieve value from a failed result."
  const ErrorOfSuccessMessage := "Cannot retrieve error from a successful result."

  /**
   * A Result is exactly one of a success carrying a value and a failure carrying an error.
   * `Result.success()` without an argument is `Success(())`. Datatype values are immutable,
   * which is what `Object.freeze` gives the source.
   */
  datatype Result<+V, +E> = Success(v: V) | Failure(e: E) {

    predicate IsSuccess() {
      Success?
    }

    predicate IsFailure() {
      !IsSuccess()
    }

    /** The `value` getter: the success value, or a thrown Error on a failure. */
    function Value(): (r: Try<V>)
      ensures r.Returned? <==> IsSuccess()
      ensures IsFailure() ==> r.thrown == ErrorThrown(ValueOfFailureMessage)
    {
      if IsFailure() then Threw(ErrorThrown(ValueOfFailureMessage)) else Returned(v)
    }

    /** The `error` getter: the failure's error, or a thrown Error on a success. */
    function Error(): (r: Try<E>)
      ensures r.Returned? <==> IsFailure()
      ensures IsSuccess() ==> r.thrown == ErrorThrown(ErrorOfSuccessMessage)
    {
      if IsSuccess() then Threw(ErrorThrown(ErrorOfSuccessMessage)) else Returned(e)
    }
  }

  /** Exactly one of the two flags holds, and each accessor gives back what the factory stored. */
  lemma FactoriesRoundTrip<V, E>(value: V, error: E)
    ensures Result<V, E>.Success(value).IsSuccess() && !Result<V, E>.Success(value).IsFailure()
    ensures Result<V, E>.Failure(error).IsFailure() && !Result<V, E>.Failure(error).IsSuccess()
    ensures Result<V, E>.Success(value).Value() == Returned(value)
    ensures Result<V, E>.Failure(error).Error() == Returned(error)
  {
  }
}
