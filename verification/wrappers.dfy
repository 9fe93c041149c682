/** General-purpose result types shared by the command-line decoder and the
    command policies. */
module Wrappers {

  /** A value that may be absent. */
  datatype Option<T> = None | Some(value: T)
}
