/** Optional values, standing in for the JavaScript `null`/`undefined` cases of the viewer. */
module Wrappers {

  /** A value that may be absent. */
  datatype Option<+T> = None | Some(value: T)
}
