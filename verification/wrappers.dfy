/** Optional values, standing in for the nullable pointers of the C++ program. */
module Wrappers {

  /** `None` plays the role of a null pointer or an absent value. */
  datatype Option<+T> = None | Some(value: T)
}
