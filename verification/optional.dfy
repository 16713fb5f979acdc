/** The absent-or-present wrapper used for the nullable C pointers of the tool. */
module Optional {

  /** `None` stands for a null pointer, `Some(v)` for a pointer to `v`. */
  datatype Option<T> = None | Some(value: T)
}
