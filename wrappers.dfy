/** Small failure-carrying datatypes shared by the other modules. */
module Wrappers {

  /** A value that may be absent: `undefined`/`null`, or a `find` that matched nothing. */
  datatype Option<+T> = None | Some(value: T)

  /** Either a value or the message of the error that was thrown. */
  datatype Result<+T> = Ok(value: T) | Err(message: string)
}
