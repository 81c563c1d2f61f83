/** Optional values, and the truthiness test the application applies to its
    optional profile name. */
module Wrappers {

  datatype Option<+T> = None | Some(value: T)

  /** Python truthiness of an optional string: `None` and `""` are both false. */
  predicate Truthy(p: Option<string>) {
    p.Some? && p.value != ""
  }
}
