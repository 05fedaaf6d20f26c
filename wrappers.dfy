/** A value that may be absent: stands for a TypeScript `T | undefined`. */
module Wrappers {
  datatype Option<+T> = None | Some(value: T)
}
