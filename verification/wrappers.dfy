/** Nullable values and results that either carry a value or the exception the C# code throws. */
module Wrappers {

  /** A C# nullable (`T?`): `None` stands for null. */
  datatype Option<+T> = None | Some(value: T) {

    /** `x ?? fallback`. */
    function Or(fallback: Option<T>): Option<T> {
      if Some? then this else fallback
    }
  }

  /** Either the value an operation returns or the exception it throws. */
  datatype Result<+T, +E> = Success(value: T) | Failure(error: E)
}
