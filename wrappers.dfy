/** Optional props and error-carrying results, shared by every component model. */
module Wrappers {

  /** A prop or value that may be `undefined`. */
  datatype Option<T> = None | Some(value: T)

  /** The outcome of an operation that can throw: `Err` carries the message thrown. */
  datatype Result<T> = Ok(value: T) | Err(message: string)
}
