/** Optional values and results shared by the order-service model. */
module Wrappers {

  /** An optional value, standing for a nullable reference or a `java.util.Optional`. */
  datatype Option<+T> = None | Some(value: T) {
    /** The value, or `default` when absent (`Map.getOrDefault`). */
    function GetOr(default: T): T {
      match this
      case Some(v) => v
      case None => default
    }
  }

  /** A value or the exception the Java code would have thrown instead. */
  datatype Result<+R, +E> = Success(value: R) | Failure(error: E)

  /** Success or failure of an operation that returns nothing. */
  datatype Outcome<+E> = Pass | Fail(error: E)

  /** The runtime exceptions the core can raise. */
  datatype Failure =
    | NoSuchElement    // `Optional.get()` on an empty optional: no order with that id
    | IllegalArgument  // `Enum.valueOf` on a string that names no constant
}
