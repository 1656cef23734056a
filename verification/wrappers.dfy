/** Optional values: the absent-or-present toolbar list, and an array lookup
    that either finds an item or would trap. */
module Wrappers {

  /** Some value, or none (Swift's `Optional`). */
  datatype Option<+T> = None | Some(value: T)
}
