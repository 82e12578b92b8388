/** Result types shared by every component of the model. */
module Prelude {
  datatype Option<+T> = None | Some(value: T)

  /** A Go `(value, error)` pair: the error texts are not modelled. */
  datatype Result<+T> = Ok(value: T) | Err
}
