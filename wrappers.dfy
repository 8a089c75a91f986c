/** Failure-carrying values. A thrown JavaScript `Error` becomes `Err` with its message. */
module Wrappers {

  datatype Option<+T> = None | Some(value: T)

  datatype Result<+T> = Ok(value: T) | Err(message: string)
}
