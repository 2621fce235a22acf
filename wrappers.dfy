/** Option and Result, failure-compatible with `:-`, and the Java exceptions the core throws. */
module Wrappers {

  /** A Java reference that may be null: None stands for null. */
  datatype Option<+T> = None | Some(value: T)

  datatype Result<+R, +E> = Success(value: R) | Failure(error: E) {
    predicate IsFailure() {
      Failure?
    }

    function PropagateFailure<U>(): Result<U, E>
      requires Failure?
    {
      Failure(error)
    }

    function Extract(): R
      requires Success?
    {
      value
    }
  }

  /** The exceptions thrown by the modelled code, each with the detail it carries. */
  datatype JavaException =
    | NullPointerException(key: string)        // unboxing a null Integer read under key
    | ClassCastException(key: string)          // the value under key is not of the requested class
    | IllegalStateException(message: string)
    | IncorrectDaoOperation(message: string)
}
