/** A value that may be missing: SQL NULL, JavaScript's undefined or NaN, a failed parse. */
module Options {
  datatype Option<+T> = None | Some(value: T)
}
