/** Option and Result types shared by the model. */
module Wrappers {

  /** A value that may be absent: Ruby's `nil` or a missing hash key. */
  datatype Option<+T> = None | Some(value: T) {

    /** The wrapped value, or `default` when absent (Ruby's `fetch(key, default)`). */
    function GetOr(default: T): (r: T)
      ensures Some? ==> r == value
      ensures None? ==> r == default
    {
      match this
      case Some(v) => v
      case None => default
    }
  }

  /** Either a successful value or the error a Ruby method would raise. */
  datatype Result<+R, +E> = Success(value: R) | Failure(error: E)
}
