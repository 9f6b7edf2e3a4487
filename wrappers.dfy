/** Optional values: Python's None stands for an absent value throughout the model. */
module Wrappers {

  datatype Option<T> = None | Some(value: T)
}
