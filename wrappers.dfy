/** Optional values, used for the partial text-to-number conversions. */
module Wrappers {

  datatype Option<+T> = None | Some(value: T)
}
