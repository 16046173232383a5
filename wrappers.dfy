/** Small result types shared by the modules of the analyzer model. */
module Wrappers {

  /** A value that may be absent (Python's `None`). */
  datatype Option<+T> = None | Some(value: T)

  /** The outcome of an operation that either succeeds or raises with a message. */
  datatype Outcome = Pass | Fail(message: string)
}
