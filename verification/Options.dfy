/** Values that may be absent: nil pointers of the Go code and missing rows. */
module Options {

  datatype Option<+T> = None | Some(value: T)
}
