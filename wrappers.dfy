/** Optional values: a rejected input, an unknown label, a submission without a result. */
module Wrappers {

  datatype Option<+T> = None | Some(value: T)
}
