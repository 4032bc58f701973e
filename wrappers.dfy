/** A value that may be absent: JavaScript's `string | null`, or the output of a shell
    command that failed. */
module Wrappers {
  datatype Option<+T> = None | Some(value: T)
}
