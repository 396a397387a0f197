/** Optional values: a table cell that may be missing (a NaN in the data frame). */
module Wrappers {

  datatype Option<+T> = None | Some(value: T)
}
