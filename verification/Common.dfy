/** Small types and functions used everywhere. */
module Common {
  /** What a lookup that may fail returns. */
  datatype Option<+T> = None | Some(value: T)

  /** For counting what holds. */
  function Bit(b: bool): nat {
    if b then 1 else 0
  }
}
