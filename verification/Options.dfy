/** The null pointers of the source: an absent value is `None`. */
module Options {
  datatype Option<+T> = None | Some(value: T)
}
