/** The optional value used wherever a Python lookup or conversion may yield nothing. */
module Wrappers {
  datatype Option<+T> = None | Some(value: T)
}
