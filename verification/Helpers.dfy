/** What several modules share: options, the range of an `int`, and products as real numbers. */
module Helpers {

  datatype Option<T> = None | Some(value: T)

  const IntMin: int := -0x8000_0000
  const IntMax: int := 0x7fff_ffff

  /** The number is an `int` of the implementation language. */
  predicate Fits(x: int) {
    IntMin <= x <= IntMax
  }

  lemma ProductAsReal(q: int, b: int)
    ensures (q * b) as real == q as real * b as real
  { }
}
