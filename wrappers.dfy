/** Optional values: a missing request header, a missing form field. */
module Wrappers {

  datatype Option<+T> = None | Some(value: T)
}
