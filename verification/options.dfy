/** The "empty point" of Camera Mouse Suite's Point class: None means "no detection
    this frame". */
module Options {
  datatype Option<T> = None | Some(value: T)
}
