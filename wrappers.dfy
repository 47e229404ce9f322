/** Optional values, and Python's truthiness test on an optional string. */
module Wrappers {

  /** A value that may be absent: a missing key, or Python's None. */
  datatype Option<+T> = None | Some(value: T)

  /** `if s:` on an `Optional[str]`: present and not the empty string. */
  predicate Truthy(o: Option<string>)
  {
    o.Some? && o.value != ""
  }
}
