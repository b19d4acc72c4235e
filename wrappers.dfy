/** Optional values, TypeScript's `T | null`. */
module Wrappers {
  datatype Option<+T> = None | Some(value: T)
}
