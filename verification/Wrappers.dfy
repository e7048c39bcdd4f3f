/** Optional values (the source's nullable references) and results that carry
    either a value or the error the source would have thrown. */
module Wrappers {

  /** A nullable reference: `None` stands for C# `null`. */
  datatype Option<+T> = None | Some(value: T) {

    /** The value, or `default` when absent (the `??` operator). */
    function GetOr(default: T): T {
      match this
      case Some(v) => v
      case None => default
    }
  }

  /** The outcome of an operation that may throw: `Failure` names the exception. */
  datatype Result<+R, +E> = Success(value: R) | Failure(error: E)
}
