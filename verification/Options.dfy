// The "present or absent" value used for Go's nil pointers, nil interfaces and lookups.

module Options {
  datatype Option<+T> = None | Some(value: T)
}
