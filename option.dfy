/** Swift's optionals. */
module Options {
  datatype Option<+T> = None | Some(value: T)
}
