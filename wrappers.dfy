// The optional value shared by every module: a C NULL pointer, a Python
// None, or an entry the driver did not find.
module Wrappers {

  datatype Option<T> = None | Some(value: T)
}
