/** Option and Outcome types used across the model. */
module Wrappers {

  /** A Java reference that may be null: `None` stands for null. */
  datatype Option<+T> = None | Some(value: T)

  /** How a call of the cache manager ends: it returns normally or raises an exception. */
  datatype Outcome = Returned | Thrown(message: string)
}
