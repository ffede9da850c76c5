/** Failure-carrying results, standing for the source's null references and thrown exceptions. */
module Wrappers {

  /** A value that may be absent: `None` stands for a C# `null` reference. */
  datatype Option<+T> = None | Some(value: T)

  /** Either a value or the exception that an operation throws instead of returning. */
  datatype Result<+T, +E> = Ok(value: T) | Err(error: E)
}
