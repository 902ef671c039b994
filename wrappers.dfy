/** Optional values: a pandas cell that may hold a missing value (NaN / None). */
module Wrappers {
  datatype Option<+T> = None | Some(value: T)
}
