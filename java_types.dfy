/** Values that stand for Java's `null` and for its unchecked exceptions.
    A Java reference that may be null is an `Option`; a call that may throw
    returns a `Result` whose failure names the exception class. */
module JavaTypes {

  /** `None` is Java's `null`. */
  datatype Option<+T> = None | Some(value: T)

  /** The unchecked exceptions the modelled code can raise. Only the one
      message the code itself builds is carried. */
  datatype Exception =
    | NullPointer
    | ClassCast
    | IllegalState
    | UnsupportedOperation
    | IllegalArgument(message: string)
    | Runtime

  /** The outcome of a Java call that returns a value or throws. */
  datatype Result<+R> = Success(value: R) | Failure(error: Exception) {

    predicate IsFailure() {
      Failure?
    }

    function PropagateFailure<U>(): Result<U>
      requires Failure?
    {
      Failure(error)
    }

    function Extract(): R
      requires Success?
    {
      value
    }
  }
}
