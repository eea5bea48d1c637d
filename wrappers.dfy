/** Optional values and failure-compatible results shared by the route analysis. */
module Wrappers {

  /** Kotlin's nullable `T?`: `None` stands for `null`. */
  datatype Option<+T> = None | Some(value: T)

  /** The exceptions the analysis can throw on bad input. */
  datatype Error =
    | NoSuchElement(message: string)    // java.util.NoSuchElementException
    | IllegalArgument(message: string)  // IllegalArgumentException

  /** Either a value or the exception that ended the computation; usable with `:-`. */
  datatype Result<+T> = Success(value: T) | Failure(error: Error) {
    predicate IsFailure() {
      Failure?
    }

    function PropagateFailure<U>(): Result<U>
      requires Failure?
    {
      Failure(error)
    }

    function Extract(): T
      requires Success?
    {
      value
    }
  }
}
