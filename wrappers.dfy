/** Stock optional-value datatype shared by the other modules. */
module Wrappers {

  /** `None` stands for an absent value: a failed remote call, a null field, no match. */
  datatype Option<+T> = None | Some(value: T)
}
