/** A value that may be absent: SQL NULL, a JavaScript null or undefined, a missing map entry. */
module Optional {
  datatype Option<+T> = None | Some(value: T)
}
