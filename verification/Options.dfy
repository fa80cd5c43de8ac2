// Shared optional value, used where the program returns None or raises.
module Options {
  datatype Option<+T> = None | Some(value: T)
}
