/** Failure values shared by the models of the harness, the bridge and the notification ledger. */
module Wrappers {

  datatype Option<+T> = None | Some(value: T)

  datatype Result<+T, +E> = Ok(value: T) | Err(error: E)
}
