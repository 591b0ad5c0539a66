/** Optional values, standing in for C# null references. */
module Wrappers {

  /** `None` plays the role of a null reference. */
  datatype Option<+T> = None | Some(value: T)
}
