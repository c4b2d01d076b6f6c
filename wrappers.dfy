/** Python's exception flow, as values: a call either returns or raises. */
module Wrappers {

  /** A raised Python exception: its class name and its message. */
  datatype Exception = Exception(kind: string, message: string)

  /** The outcome of a call that may raise. */
  datatype Result<+T> = Ok(value: T) | Raise(exc: Exception)

  function FileExistsError(message: string): Exception
  {
    Exception("FileExistsError", message)
  }
}
