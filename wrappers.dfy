/** The Option type used for nullable values of the application (a task that may be absent,
    a server message that may be missing). */
module Wrappers {
  datatype Option<+T> = None | Some(value: T)
}
