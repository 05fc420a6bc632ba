/** The Option datatype used for lookups that may miss and for nullable strings. */
module Wrappers {

  datatype Option<+T> = None | Some(value: T)

}
