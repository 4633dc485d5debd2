/** The usual optional-value wrapper. */
module Optional {
  datatype Option<+T> = None | Some(value: T)
}
