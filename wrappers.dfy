/** Optional values, standing in for Go's nilable pointers and nilable `error` results. */
module Wrappers {

  datatype Option<+T> = None | Some(value: T)
}
