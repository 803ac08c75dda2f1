// A value that may be missing: a failed lookup, an error, a step that cannot happen.
module Wrappers {
  datatype Option<+T> = None | Some(value: T)
}
