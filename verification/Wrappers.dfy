module Wrappers {
  datatype Option<+T> = None | Some(value: T)

  /** A value, or the point at which the source throws. */
  datatype Result<+T> = Ok(value: T) | Thrown
}
