/** Optional values: a JSON field or a cache entry that may be missing. */
module Wrappers {

  datatype Option<+T> = None | Some(value: T)

  /**
   Python truthiness of a value that is a string or None, as `all([...])`
   and `not v` test it: only None and the empty string are false.
   */
  predicate Truthy(v: Option<string>): (r: bool)
    ensures r <==> v != None && v != Some("")
  {
    match v
    case None => false
    case Some(s) => |s| > 0
  }

}
