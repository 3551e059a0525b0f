/** The optional value every other module passes around. */
module Options {
  datatype Option<+T> = None | Some(value: T)
}
