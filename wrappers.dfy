/** Option and Result values standing in for C#'s nullable references and for
    operations that either produce a value or throw. */
module Wrappers {

  datatype Option<+T> = None | Some(value: T) {
    /** `x ?? default` */
    function GetOr(default: T): T {
      match this
      case Some(v) => v
      case None => default
    }
  }

  /** The outcome of a collaborator call: a value, or the message of the exception it threw. */
  datatype Result<+T, +E> = Success(value: T) | Failure(error: E)

  /** `string.IsNullOrEmpty(s)` for a nullable string. */
  predicate NullOrEmpty(s: Option<string>) {
    s.None? || |s.value| == 0
  }
}
