/** Option and Result, the two wrappers the model uses for "may be absent"
    (an optional field of a TypeScript type) and "may fail" (a thrown Error). */
module Wrappers {

  datatype Option<+T> = None | Some(value: T) {
    function GetOr(default: T): T {
      match this
      case Some(v) => v
      case None => default
    }
  }

  datatype Result<+R, +E> = Success(value: R) | Failure(error: E)
}
