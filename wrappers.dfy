/** Optional values: the model's stand-in for C# null and for Nullable<int>. */
module Wrappers {
  datatype Option<+T> = None | Some(value: T)
}
