/** Option and Result values, standing in for Python's `None` and for an
    exception raised by the object-relational layer. */
module Wrappers {

  /** A value that may be absent, as a nullable database column is. */
  datatype Option<+T> = None | Some(value: T) {

    /** The encapsulated value, or `default` when absent. */
    function GetOr(default: T): T {
      match this
      case Some(v) => v
      case None => default
    }
  }

  /** Either a successful value or the error that ended the operation. */
  datatype Result<+R, +E> = Success(value: R) | Failure(error: E)
}
