/** The nullable values of the source: `None` is Python's None and SQL's NULL. */
module Wrappers {
  datatype Option<+T> = None | Some(value: T)
}
