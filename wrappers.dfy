/** Small value wrappers shared by the modules of the model. */
module Wrappers {

  /** A value that may be absent (Python's None, PHP's null). */
  datatype Option<+T> = None | Some(value: T)
}
