/** The optional value used wherever the Python code may return None or raise. */
module Wrappers {

  datatype Option<+T> = None | Some(value: T)
}
