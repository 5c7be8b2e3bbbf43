/** Option and Result, the two failure-carrying shapes the model uses in place of
    JavaScript's `undefined` results and thrown exceptions. */
module Wrappers {

  /** `None` stands for a missing value (`undefined` or SQL NULL). */
  datatype Option<+T> = None | Some(value: T) {

    /** The carried value, or `default` when there is none. */
    function GetOr(default: T): T {
      match this
      case Some(v) => v
      case None => default
    }
  }

  /** `Failure` stands for a rejected parse or a statement the database refused. */
  datatype Result<+R, +E> = Success(value: R) | Failure(error: E)
}
