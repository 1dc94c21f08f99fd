/** The usual failure-carrying datatypes: Option for Python's None, Result for a
    value or the exception raised instead of it. */
module Wrappers {

  datatype Option<+T> = None | Some(value: T)

  datatype Result<+T, +E> = Ok(value: T) | Err(error: E)
}
