/** Optional values and results with an error message, used wherever the
    modelled code can fail or find nothing. */
module Options {

  datatype Option<+T> = None | Some(value: T)

  /** The outcome of an operation that may fail with a message. */
  datatype Result<+T> = Ok(value: T) | Err(message: string)
}
