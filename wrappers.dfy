/** The optional-value wrapper used for lookups that can fail (C++ `npos`, NULL). */
module Wrappers {

  datatype Option<+T> = None | Some(value: T)
}
