/**
 What several modules share: an optional value, and a condition that counts as one or none.
 */
module Wrappers {
  datatype Option<+T> = None | Some(value: T)

  function One(b: bool): nat { if b then 1 else 0 }
}
