/** The two Python exceptions the pre-processing scripts can raise, and the
    result type that carries them. */
module Outcomes {

  /** `IndexError`: a list or array index past its end.
      `KeyError(key)`: a node pair missing from the edge registry. */
  datatype PyError = IndexError | KeyError(key: (int, int))

  datatype Result<T> = Ok(value: T) | Err(error: PyError)
}
