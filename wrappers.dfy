/** Optional values and results with an error, used for the missing cells and
    the parse failures of the trade-ledger pipeline. */
module Wrappers {

  /** A cell that may be missing (pandas NaN / None). */
  datatype Option<+T> = None | Some(value: T)

  /** The outcome of a step that may raise instead of returning a value. */
  datatype Result<+T, +E> = Ok(value: T) | Err(error: E)
}
