/** Optional values, used for the outcomes that the program turns into a fatal exit. */
module Wrappers {

  datatype Option<+T> = None | Some(value: T)
}
