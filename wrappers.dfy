/** Optional values: the model's stand-in for a null pointer or a "not found" signal. */
module Wrappers {

  datatype Option<+T> = None | Some(value: T)
}
