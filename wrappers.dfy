/** Failure-compatible wrappers shared by every module of the model. */
module Wrappers {

  /** A JavaScript value that may be absent (`null` / `undefined`). */
  datatype Option<+T> = None | Some(value: T) {
    function GetOr(default: T): T {
      match this
      case Some(v) => v
      case None => default
    }
  }

  /** The `{ ok: true, ... } | { ok: false, error }` results of the server actions. */
  datatype Result<+T, +E> = Success(value: T) | Failure(error: E)
}
