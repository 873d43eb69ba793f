/** Small value types shared by the components. */
module Common {

  /** A value that may be absent (`undefined` or `null` on the JavaScript side). */
  datatype Option<+T> = None | Some(value: T)

  /** JavaScript's `a || fallback` on an optional string: a missing value and the
      empty string are both falsy, so both give way to the fallback. */
  function OrElse(a: Option<string>, fallback: string): (r: string)
    ensures (a.Some? && a.value != "") ==> r == a.value
    ensures (a.None? || a.value == "") ==> r == fallback
    ensures fallback != "" ==> r != ""
  {
    if a.Some? && a.value != "" then a.value else fallback
  }
}
