/** Optional values: the model's stand-in for `undefined` and `null`. */
module Wrappers {

  datatype Option<+T> = None | Some(value: T)

  /** A string option that is present and not the empty string: JavaScript's truthiness
      test `!!s` on a value of type `string | undefined` (or `string | null`). */
  predicate Truthy(s: Option<string>) {
    s.Some? && s.value != ""
  }
}
