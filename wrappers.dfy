/** Option and Result values: the model's stand-ins for Python's `None`,
    for dictionary keys that may be absent, and for raised exceptions. */
module Wrappers {

  datatype Option<+T> = None | Some(value: T) {

    /** `d.get(key, default)` on a key that may be absent. */
    function GetOr(default: T): T
    {
      match this
      case Some(v) => v
      case None => default
    }
  }

  /** The outcome of a step that can raise instead of returning. */
  datatype Result<+T, +E> = Success(value: T) | Failure(error: E)
}
