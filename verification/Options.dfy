/** The optional value shared by the component models. */
module Options {
  datatype Option<+T> = None | Some(value: T)
}
