/** Optional values: the model's stand-in for Go's nil references and nil slices. */
module Wrappers {

  datatype Option<+T> = None | Some(value: T)
}
