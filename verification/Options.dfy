/** A value that may be missing. */
module Options {
  datatype Option<+T> = None | Some(value: T)

  /** Present and not empty, which is how the program tests ids, hashes and blobs. */
  predicate Truthy(s: Option<string>) { s.Some? && s.value != "" }
}
