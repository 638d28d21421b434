/** Optional values, standing for Python's `None`-or-value attributes and lookups. */
module Wrappers {

  datatype Option<+T> = None | Some(value: T)

  /** Python's `x or default` on an optional string: `None` and the empty string are both falsy. */
  function OrElse(x: Option<string>, default: string): string
  {
    if x.Some? && x.value != "" then x.value else default
  }
}
