/** The optional value used wherever the source tests a member for presence
    (`null`, `undefined`, a failed `find`). */
module Wrappers {
  datatype Option<+T> = None | Some(value: T)
}
