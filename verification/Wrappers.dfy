/** The one wrapper every component shares: a value that may be absent (a nil
    pointer, an empty one-slot channel, a failed lookup). */
module Wrappers {
  datatype Option<+T> = None | Some(value: T)
}
