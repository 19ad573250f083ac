/** Small types that several modules share. */
module Wrappers {

  datatype Option<+T> = None | Some(value: T)

  /** A truth value as a number. */
  function Bit(b: bool): nat { if b then 1 else 0 }
}
