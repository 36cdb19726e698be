/** A value that may be missing: a nil pointer, a nil slice or an error in the source. */
module Options {
  datatype Option<T> = None | Some(value: T)
}
