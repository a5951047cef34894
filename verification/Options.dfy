/** A value that may be missing: null, undefined, or an answer that is an error. */
module Options {
  datatype Option<+T> = None | Some(value: T)
}
