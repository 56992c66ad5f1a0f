/** Option and Result values, and the Python exceptions the modelled code can raise. */
module Wrappers {

  datatype Option<T> = None | Some(value: T)

  /** The exceptions that end an operation of the comparison early. */
  datatype Exception =
    | IndexError      // a list index out of range
    | AttributeError  // an attribute read on None
    | ValueError      // list.index of a value that is not in the list
    | AssertionError  // a failed unittest assertion, or an explicit raise

  /** The value an operation returns, or the exception it raises. */
  datatype Result<T> = Ok(value: T) | Err(error: Exception)
}
