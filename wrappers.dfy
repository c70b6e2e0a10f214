/** An optional value: `None` stands for a parse that the source would abort with an exception. */
module Wrappers {
  datatype Option<+T> = None | Some(value: T)
}
