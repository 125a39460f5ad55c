/** Optional values, standing for std::string::npos results, exceptions and null pointers. */
module Wrappers {
  datatype Option<+T> = None | Some(value: T)
}
