/** Option stands in for a nullable player reference; Result for a call that may throw. */
module Wrappers {

  datatype Option<+T> = None | Some(value: T)

  /** The configuration errors the game can raise. */
  datatype Error = InvalidPlayerCount(message: string)

  datatype Result<+T> = Ok(value: T) | Err(error: Error)
}
