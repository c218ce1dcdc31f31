// A value that may be missing: null, undefined, or not found.
module Options {
  datatype Option<T> = None | Some(value: T)
}
