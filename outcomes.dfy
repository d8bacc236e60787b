/** Option and Result values, used for JavaScript's `undefined`/`null` and for thrown errors. */
module Outcomes {

  datatype Option<T> = None | Some(value: T)

  /** A computation that either yields a value or throws an `Error` carrying `message`. */
  datatype Result<T> = Ok(value: T) | Err(message: string)
}
