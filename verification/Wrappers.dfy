// Option: a value that may be absent (a missing file, a nil pointer, an error result without its text).
module Wrappers {
  datatype Option<+T> = None | Some(value: T)
}
