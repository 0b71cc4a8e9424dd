/** Option and Result types, and the kinds of exception the modelled code raises. */
module Wrappers {

  datatype Option<+T> = None | Some(value: T)

  /** The Python exception classes that the modelled code can raise. `Exception` is the bare
      `Exception` class raised by the token-limit bookkeeping of the inference wrapper. */
  datatype Error = KeyError | ValueError | TypeError | IndexError | AttributeError | Exception

  datatype Result<+T> = Success(value: T) | Failure(error: Error)

  /** The outcome of a Python call that returns None or raises. */
  datatype Outcome = Pass | Fail(error: Error)
}
