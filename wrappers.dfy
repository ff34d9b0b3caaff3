/** Optional values: `None` stands for JavaScript's `undefined` (an absent field). */
module Wrappers {
  datatype Option<+T> = None | Some(value: T)
}
