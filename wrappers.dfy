/** Optional values: JavaScript's `null` error slot and the `js` property that
    a skipped subject pipeline never gets. */
module Wrappers {

  datatype Option<+T> = None | Some(value: T)
}
