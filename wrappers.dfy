/** Optional values: a JSON field that is absent or null, or a route parameter that did not parse. */
module Wrappers {
  datatype Option<+T> = None | Some(value: T)
}
