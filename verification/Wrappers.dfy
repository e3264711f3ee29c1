/** The two result shapes the other modules share. */
module Wrappers {

  datatype Option<+T> = None | Some(value: T)

  /** A TypeScript call that either returns or throws; `error` names the throw. */
  datatype Result<+T, +E> = Ok(value: T) | Err(error: E)
}
