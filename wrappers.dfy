/** Option and Result, used for the validators' "no error / error message" answers. */
module Wrappers {

  /** `undefined` in the frontend, `None` in the backend. */
  datatype Option<+T> = None | Some(value: T)

  /** A backend validator either returns a (possibly normalised) value or raises a ValueError. */
  datatype Result<+R, +E> = Ok(value: R) | Err(error: E)
}
