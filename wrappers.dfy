/** Option, standing for Python's `None` and for the partial conversions `int()` and `float()`. */
module Wrappers {

  datatype Option<+T> = None | Some(value: T)
}
