/** A value, or none: a null pointer, or a request that failed. */
module Options {
  datatype Option<T> = None | Some(value: T)
}
