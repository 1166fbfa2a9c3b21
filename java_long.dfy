/**
 Java's 64-bit `long` arithmetic as the merger uses it: two's-complement addition that wraps
 around, and `Math.min` / `Math.max`.
 */
module JavaLong {

  const TwoTo64: int := 0x1_0000_0000_0000_0000
  const MinLong: int := -0x8000_0000_0000_0000
  const MaxLong: int := 0x7fff_ffff_ffff_ffff

  /** A value of Java's primitive type `long`. */
  type Long = x: int | MinLong <= x <= MaxLong

  /** Reduces an integer to the `long` that two's-complement arithmetic leaves of it. */
  function Wrap(x: int): (r: Long)
    ensures (x - r) % TwoTo64 == 0
    ensures MinLong <= x <= MaxLong ==> r == x
  {
    (x - MinLong) % TwoTo64 + MinLong
  }

  /** Java's `a + b` on two `long`s. */
  function Add(a: Long, b: Long): (r: Long)
    ensures MinLong <= a + b <= MaxLong ==> r == a + b
    ensures a + b > MaxLong ==> r == a + b - TwoTo64
    ensures a + b < MinLong ==> r == a + b + TwoTo64
  {
    Wrap(a + b)
  }

  /** `Math.min(long, long)`: the smaller argument. */
  function Min(a: Long, b: Long): (r: Long)
    ensures r <= a && r <= b
    ensures r == a || r == b
  {
    if a <= b then a else b
  }

  /** `Math.max(long, long)`: the larger argument. */
  function Max(a: Long, b: Long): (r: Long)
    ensures r >= a && r >= b
    ensures r == a || r == b
  {
    if a >= b then a else b
  }

  /** Wrapping an intermediate sum does not change the wrapped total. */
  lemma WrapOfWrapPlus(x: int, y: int)
    ensures Wrap(Wrap(x) + y) == Wrap(x + y)
  {
  }
}
