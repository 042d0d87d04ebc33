/** Optional values and error-carrying results shared by every analysis. */
module Results {

  /** A value that may be missing: a NaN/NaT cell, or a lookup that raised. */
  datatype Option<+T> = None | Some(value: T)

  /** The outcome of an analysis: its output, or the message it prints when it gives up. */
  datatype Result<+T> = Ok(value: T) | Err(message: string)
}
