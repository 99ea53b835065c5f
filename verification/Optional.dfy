/** A value that may be absent: a null pointer, a search without result. */
module Optional {
  datatype Option<T> = None | Some(value: T)
}
