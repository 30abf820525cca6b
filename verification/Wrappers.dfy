/** The optional and fallible results that stand for Python's `None` and `ValueError`. */
module Wrappers {

  datatype Option<+T> = None | Some(value: T)

  datatype Result<+T> = Ok(value: T) | Err(error: string)
}
