/** Optional values, for JavaScript's `undefined` results (`find` with no match, a missing key). */
module Wrappers {
  datatype Option<+T> = None | Some(value: T)
}
