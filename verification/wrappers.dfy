/** Optional values. A statistic that is undefined (the NaN of a window that
    received no records) is `None`. */
module Wrappers {

  datatype Option<+T> = None | Some(value: T)
}
