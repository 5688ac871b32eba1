/** Optional values, Python-style failures and `range` lengths shared by the helper models. */
module Wrappers {

  /** A Python value that may be `None`. */
  datatype Option<+T> = None | Some(value: T)

  /** The exceptions the helpers raise on their own inputs (not those of the libraries they call). */
  datatype PyError = IndexError | ZeroDivisionError

  /** The outcome of a helper call: a value, or the exception it raises. */
  datatype Result<+T> = Ok(value: T) | Raises(error: PyError)

  /** The length of Python's `range(n)`. */
  function Count(n: int): nat
  {
    if n > 0 then n else 0
  }
}
