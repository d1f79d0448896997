/** Optional values and lookup results shared by the whole model. */
module Outcomes {

  /** A value that may be absent; a missing numeric sample (pandas NaN) is `None`. */
  datatype Option<+T> = None | Some(value: T)

  /** The one failure the core can raise: indexing a frame with a column name it does not have. */
  datatype Error = MissingColumn(name: string)

  datatype Result<+T> = Ok(value: T) | Err(error: Error)
}
