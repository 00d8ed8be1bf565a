/** The null-or-value idiom shared by every component model. */
module Options {
  datatype Option<+T> = None | Some(value: T)
}
