/** Option and Result, used for the optional fields of the scenario format
    and for the router's lookup failure. */
module Wrappers {

  datatype Option<+T> = None | Some(value: T)

  datatype Result<+R, +E> = Ok(value: R) | Err(error: E)
}
