/** Failure-compatible wrapper used wherever the script can produce a missing
    value (a NaN cell) or stop with an exception. */
module Wrappers {

  /** `None` stands for a missing value or a raised error, `Some(v)` for a value. */
  datatype Option<+T> = None | Some(value: T)
}
