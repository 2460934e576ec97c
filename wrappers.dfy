/** Python's `None`-or-value, as the learners and the game use it for an absent next state or action. */
module Wrappers {

  datatype Option<T> = None | Some(value: T)
}
