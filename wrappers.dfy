/** Optional values: a C# nullable reference or `Nullable<T>` is `None` when it holds no value. */
module Wrappers {

  datatype Option<+T> = None | Some(value: T)
}
