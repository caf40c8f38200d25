/** Optional values: the model of a nullable boxed `Integer` read from a capture result. */
module Wrappers {

  datatype Option<+T> = None | Some(value: T)
}
