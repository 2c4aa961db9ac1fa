/** Failure-compatible wrappers shared by the model: `Option` stands for a
    JavaScript value that may be `undefined`, `Result` for a computation that
    may throw. */
module Wrappers {

  datatype Option<+T> = None | Some(value: T) {

    /** The `??` operator: the wrapped value, or `default` when absent. */
    function GetOr(default: T): T {
      match this
      case Some(v) => v
      case None => default
    }
  }

  datatype Result<+R, +E> = Success(value: R) | Failure(error: E)
}
