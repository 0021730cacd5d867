/** Failure-carrying values shared by the producer and transformer models. */
module Wrappers {

  /** A value that may be absent: Python's `None`, or an exception that ends the computation. */
  datatype Option<+T> = None | Some(value: T)

  /** The outcome of a check that either passes or raises with an error value. */
  datatype Outcome<+E> = Pass | Fail(error: E)
}
