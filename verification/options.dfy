/** A value that may be missing: a null pointer, or nothing found. */
module Options {

  datatype Option<T> = None | Some(value: T)
}
