/** Small failure-compatible wrapper shared by the model's modules. */
module Wrappers {

  /** A value that may be absent, standing in for Go's `(value, ok)` pairs and nil pointers. */
  datatype Option<+T> = None | Some(value: T)
}
