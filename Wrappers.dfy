/** Optional values: a missing date bound, an unparsable date, a page without a category filter. */
module Wrappers {

  datatype Option<+T> = None | Some(value: T)
}
