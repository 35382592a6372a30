/** Python's `None`-or-value, used for the nullable model fields. */
module Wrappers {

  datatype Option<+T> = None | Some(value: T)

  /** `x or ''` for a field that holds a string or None. */
  function OrEmpty(o: Option<string>): string
  {
    if o.Some? then o.value else ""
  }
}
