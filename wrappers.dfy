/** The Option value used for the source's "not found" paths. */
module Wrappers {

  datatype Option<+T> = None | Some(value: T)
}
