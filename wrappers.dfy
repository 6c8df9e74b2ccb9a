/** Optional values: `None` stands for Python's `None` and for a raised exception. */
module Wrappers {
  datatype Option<+T> = None | Some(value: T)
}
