/** Option and Result values, and the Python exceptions that escape the core. */
module Wrappers {

  datatype Option<+T> = None | Some(value: T)

  /** The exceptions the core lets propagate: `int()` and tuple unpacking raise
      ValueError, indexing past the end of a list raises IndexError, `open` on a
      missing path raises FileNotFoundError. None of them is caught anywhere in
      the core, so each one ends the run. */
  datatype PyError = ValueError | IndexError | FileNotFoundError

  /** The outcome of a Python call: a value, or the exception it raised. */
  datatype Result<+T> = Ok(value: T) | Raise(error: PyError)
}
