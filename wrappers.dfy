/** Option and Result values used throughout the model in place of JavaScript's
    `undefined`/`NaN` and of early `return`s that report an error. */
module Wrappers {

  datatype Option<+T> = None | Some(value: T)

  datatype Result<+T, +E> = Ok(value: T) | Err(error: E)
}
