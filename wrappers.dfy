/** Optional values: the model's stand-in for Python's `None` and pandas' missing values (NaN). */
module Wrappers {

  datatype Option<+T> = None | Some(value: T)
}
