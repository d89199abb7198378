/** Option and Result, used for oracle outcomes (a remote call that may fail)
    and for Python exceptions that the code catches. */
module Wrappers {

  datatype Option<+T> = None | Some(value: T)

  datatype Result<+T, +E> = Ok(value: T) | Err(error: E)
}
