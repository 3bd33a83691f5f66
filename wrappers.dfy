/** Optional values: `null` / `undefined` in the applications become `None`. */
module Wrappers {

  datatype Option<+T> = None | Some(value: T)

}
