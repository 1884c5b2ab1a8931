/** Small failure-carrying datatypes shared by the whole model. */
module Wrappers {

  /** A value that may be missing. */
  datatype Option<+T> = None | Some(value: T)

  /** The result of an operation that either succeeds without a value or
      fails with an error: Go's `error` return, `nil` being `Pass`. */
  datatype Outcome<+E> = Pass | Fail(error: E)
}
