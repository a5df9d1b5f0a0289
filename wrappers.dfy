/** Failure-carrying values used throughout the model: an optional value, and
    the (value, error) pairs that Go functions return, with the error carried
    as the text of the Go error value. */
module Wrappers {

  datatype Option<+T> = None | Some(value: T)

  datatype Result<+T> = Ok(value: T) | Err(msg: string)
}
