/** Option and Result values, used for the parts of the service that may fail. */
module Wrappers {

  datatype Option<+T> = None | Some(value: T)

  /** The outcome of a step that either yields a value or raises an error
      whose text (Python's `str(e)`) is `error`. */
  datatype Result<+T> = Ok(value: T) | Err(error: string)
}
