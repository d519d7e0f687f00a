/** The stock optional value used by every module for a nullable column or a missing result. */
module Wrappers {
  datatype Option<+T> = None | Some(value: T)
}
