/** Small shared vocabulary: an optional value, integer min/max, and the
    (blockNumber, logIndex) order of chain positions. */
module Common {

  /** A value that may be absent (JavaScript `undefined`/`null`). */
  datatype Option<+T> = None | Some(value: T)

  function Max(a: int, b: int): (r: int)
    ensures r >= a && r >= b && (r == a || r == b)
  {
    if a >= b then a else b
  }

  function Min(a: int, b: int): (r: int)
    ensures r <= a && r <= b && (r == a || r == b)
  {
    if a <= b then a else b
  }

  /** Position (b1, i1) comes strictly before (b2, i2) in (blockNumber, logIndex) order. */
  predicate CursorLess(b1: int, i1: int, b2: int, i2: int)
  {
    b1 < b2 || (b1 == b2 && i1 < i2)
  }

  predicate CursorLeq(b1: int, i1: int, b2: int, i2: int)
  {
    CursorLess(b1, i1, b2, i2) || (b1 == b2 && i1 == i2)
  }
}
