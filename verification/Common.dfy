/** The nullable result shared by the models below. */
module Common {
  datatype Option<+T> = None | Some(value: T)
}
