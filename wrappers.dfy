/** Optional values, used for the result of every decoder in this model. */
module Wrappers {

  datatype Option<+T> = None | Some(value: T)
}
