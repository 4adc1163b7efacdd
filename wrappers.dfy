/** Error values for the exceptions the SBSA core raises, and the result shapes that carry them. */
module Wrappers {

  /** The two Python exceptions the core can raise: `ValueError` with its message,
      and the `KeyError` a dictionary lookup raises for a missing key. */
  datatype Error = ValueError(message: string) | KeyError(key: string)

  /** The value a Python function returns, or the exception it raises. */
  datatype Result<T> = Ok(value: T) | Err(error: Error)

  /** Outcome of a Python method that returns `None`: it returns normally or raises. */
  datatype Outcome = Pass | Fail(error: Error)
}
