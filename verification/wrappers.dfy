/** Option and Result: how the model writes Java's nullable references and thrown exceptions. */
module Wrappers {

  /** A nullable reference: None stands for Java's null. */
  datatype Option<+T> = None | Some(value: T) {

    /** The value, or a default when the reference is null. */
    function GetOr(default: T): T
    {
      match this
      case Some(v) => v
      case None => default
    }
  }

  /** The outcome of an operation that may throw: Failure carries the exception kind. */
  datatype Result<+R, +E> = Success(value: R) | Failure(error: E)
}
