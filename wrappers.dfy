module Wrappers {

  /** A value that may be missing: a C# reference that may be null. */
  datatype Option<+T> = None | Some(value: T)
}
