/** Small result types shared by every module of the model. */
module Wrappers {
  /** A value that may be absent: C# `null`, Python `None`. */
  datatype Option<T> = None | Some(value: T)
}
