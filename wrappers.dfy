/** The optional value used for parse results and for Go's `error` (None is `nil`). */
module Wrappers {
  datatype Option<+T> = None | Some(value: T)
}
