/** Optional values, standing for the references that may be `null` in the system. */
module Wrappers {

  datatype Option<+T> = None | Some(value: T)
}
