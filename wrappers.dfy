/** Optional values. In this model `None` stands for a missing dictionary key or Python's `None`. */
module Wrappers {

  datatype Option<+T> = None | Some(value: T)
}
