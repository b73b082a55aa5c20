/** Option and Result carriers shared by every module, plus Python truthiness of
    nullable strings (`None` and `""` are both falsy). */
module Wrappers {

  datatype Option<T> = None | Some(value: T)

  datatype Result<T, E> = Ok(value: T) | Err(error: E)

  /** A dictionary entry that may be absent altogether, as opposed to present with a null value. */
  datatype Slot<T> = Missing | Present(value: T)

  /** Python truthiness of an optional string. */
  predicate Truthy(o: Option<string>) {
    o.Some? && o.value != ""
  }

  /** Python's `a or b` on optional strings. */
  function OrElse(a: Option<string>, b: Option<string>): Option<string> {
    if Truthy(a) then a else b
  }

  /** Python's `a or default` with a string default. */
  function OrDefault(a: Option<string>, default: string): string {
    if Truthy(a) then a.value else default
  }

  /** Reading a possibly absent key with `dict.get`: an absent key reads as null. */
  function SlotGet<T>(s: Slot<Option<T>>): Option<T> {
    if s.Present? then s.value else None
  }
}
