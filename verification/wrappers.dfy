/** Optional values and results that carry a Java-style failure.

    The modelled code signals problems by throwing; every operation that can
    throw returns a `Result` here, with the kind of exception and its message. */
module Wrappers {

  /** A value that may be absent; `None` stands for Java's `null`. */
  datatype Option<+T> = None | Some(value: T)

  /** The exceptions the modelled code can raise. */
  datatype Failure =
    | RuntimeError(message: string)
    | IllegalArgument(message: string)
    | NullPointer
    | IndexOutOfBounds
    | ClassCast
    | IOError(message: string)
    | CheckedException(message: string) // a plain `java.lang.Exception`

  /** Either the value an operation returns or the exception it throws. */
  datatype Result<+T> = Ok(value: T) | Fail(failure: Failure) {
    predicate IsFailure() {
      Fail?
    }

    function PropagateFailure<U>(): Result<U>
      requires Fail?
    {
      Fail(failure)
    }

    function Extract(): T
      requires Ok?
    {
      value
    }
  }
}
