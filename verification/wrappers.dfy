/** Option and Result, the two failure-carrying datatypes the model uses in
    place of JavaScript's `undefined` and Zod's `safeParse` outcome. */
module Wrappers {

  /** A value that may be absent (`undefined` in the source). */
  datatype Option<+T> = None | Some(value: T) {

    /** The carried value, or `default` when absent (JavaScript's `??`). */
    function GetOr(default: T): T {
      match this
      case Some(v) => v
      case None => default
    }
  }

  /** The outcome of a validation: the parsed data or the reasons it failed. */
  datatype Result<+R, +E> = Success(value: R) | Failure(error: E)
}
