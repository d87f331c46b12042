/** Failure-carrying values: the source throws an `Error` with a message; the model returns one. */
module Results {

  datatype Option<+T> = None | Some(value: T)

  /** A computed value, or the error the source would have thrown. */
  datatype Result<+T, +E> = Ok(value: T) | Err(error: E)

  /** The outcome of a validator that returns nothing and throws on bad input. */
  datatype Check = Pass | Fail(message: string)
}
