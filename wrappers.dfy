/** Optional values: Python's `None` / a present value. */
module Wrappers {
  datatype Option<+T> = None | Some(value: T)
}
