/** Option and Result, standing for the source's `undefined`/`NaN` values and its error replies. */
module Outcomes {

  datatype Option<+T> = None | Some(value: T)

  datatype Result<+T, +E> = Ok(value: T) | Err(error: E)
}
