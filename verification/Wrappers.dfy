/** A value that may be missing: a column that may be null, a query without a row, a call that failed. */
module Wrappers {
  datatype Option<+T> = None | Some(value: T)
}
