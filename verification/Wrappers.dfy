/** Result types and a count of truth values, shared by the models. */
module Wrappers {

  datatype Option<+T> = None | Some(value: T)

  datatype Result<+T, +E> = Ok(value: T) | Err(error: E)

  function Flag(b: bool): nat { if b then 1 else 0 }
}
