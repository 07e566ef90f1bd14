/** Datatypes shared by every component of the model. */
module Prelude {

  /** A value that may be absent: the program's `null` and `undefined`. */
  datatype Option<+T> = None | Some(value: T)

  /** The outcome of an operation that may throw. */
  datatype Result<+T> = Ok(value: T) | Thrown
}
