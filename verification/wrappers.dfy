/** The optional-value type used for request fields that may be undefined
    and for parse results that may fail. */
module Wrappers {

  datatype Option<+T> = None | Some(value: T)
}
