/** What several modules use. */
module Basics {

  datatype Option<T> = None | Some(value: T)

  /** A truth value as a number to count with. */
  function One(b: bool): nat {
    if b then 1 else 0
  }
}
