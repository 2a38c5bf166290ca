/** The optional value used for absent results (JavaScript's `null`). */
module Options {
  datatype Option<+T> = None | Some(value: T)
}
