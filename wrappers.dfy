/** Optional values: Python's `None` for an absent cache entry, and Dash's
    `no_update` sentinel for a callback output that is left as it is. */
module Wrappers {
  datatype Option<+T> = None | Some(value: T)
}
