/** The two result shapes the modules share for Go's (value, ok) and (value, err) returns. */
module Wrappers {
  datatype Option<+T> = None | Some(value: T)

  datatype Result<+T> = Ok(value: T) | Err(message: string)
}
