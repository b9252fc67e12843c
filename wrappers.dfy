/** Optional values, and the JavaScript truthiness test on optional strings. */
module Wrappers {

  /** An optional field of a record: None stands for a key that is absent from the object. */
  datatype Option<+T> = None | Some(value: T)

  /** `if (s)` on an optional string: absent and the empty string are both falsy. */
  predicate Truthy(o: Option<string>) {
    o.Some? && o.value != ""
  }

  /** `s || fallback` on an optional string. */
  function OrElse(o: Option<string>, fallback: string): (r: string)
    ensures Truthy(o) ==> r == o.value
    ensures !Truthy(o) ==> r == fallback
  {
    if Truthy(o) then o.value else fallback
  }
}
