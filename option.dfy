/** An optional value: JavaScript's `undefined` for an absent prop or an absent map entry. */
module Options {
  datatype Option<+T> = None | Some(value: T)
}
