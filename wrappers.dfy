/** Optional values, used for the timer slot and for parse results that may be NaN. */
module Wrappers {

  datatype Option<+T> = None | Some(value: T)
}
