/** Optional value: `Some` for a found line, `None` where `find` yields `undefined`. */
module Wrappers {

  datatype Option<+T> = None | Some(value: T)
}
