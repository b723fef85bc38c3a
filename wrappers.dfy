/** Optional values and success-or-error results, used for the absent fields of
    the analysis payload and for the validation outcome of an upload. */
module Wrappers {

  datatype Option<+T> = None | Some(value: T)

  datatype Result<+T, +E> = Success(value: T) | Failure(error: E)

  /** JavaScript truthiness of a string that may be missing: present and not
      the empty string. */
  predicate Truthy(s: Option<string>) {
    s.Some? && s.value != ""
  }
}
