/** An optional value, used where the C++ code has a null pointer or an absent map entry. */
module Wrappers {
  datatype Option<+T> = None | Some(value: T)
}
