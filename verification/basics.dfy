/** Values shared by the whole model. */
module Basics {

  /** A value that may be absent: a SQL NULL column, an unresolved role, a missing row. */
  datatype Option<+T> = None | Some(value: T)
}
