/** Small shared vocabulary: an optional value (Python's `None` or a value) and `min`. */
module Basics {

  datatype Option<+T> = None | Some(value: T)

  /** Python's built-in `min` on two integers. */
  function Min(a: int, b: int): (m: int)
    ensures m <= a && m <= b
    ensures m == a || m == b
  {
    if a <= b then a else b
  }
}
