/** Machine words of the Go source, on top of Dafny's unbounded integers. */
module Words {

  /** Go's int64. */
  type int64 = x: int | -0x8000_0000_0000_0000 <= x < 0x8000_0000_0000_0000

  /** Go's uint16. */
  type uint16 = x: int | 0 <= x < 0x1_0000

  /** Go's byte. Every mask the source applies to a byte (`& 0x0F`, `& 0x3F`) keeps low bits and every `|`
      it applies sets bits the mask cleared, so on numbers `b & (2^k - 1)` is `b % 2^k`, such an `|` is
      `+`, and `b >> k` is `b / 2^k`. */
  type byte = x: int | 0 <= x < 0x100

  /** Number of distinct 64-bit words. */
  const WordSpan := 0x1_0000_0000_0000_0000

  /** Two's-complement truncation of a mathematical integer to int64: what Go's int64 `+`, `-` and `<<`
      produce when the exact result does not fit. */
  function Wrap64(x: int): (r: int64)
    ensures -0x8000_0000_0000_0000 <= x < 0x8000_0000_0000_0000 ==> r == x
    ensures (x - r) % WordSpan == 0
  {
    (x + 0x8000_0000_0000_0000) % WordSpan - 0x8000_0000_0000_0000
  }

  /** Euclidean division by 2^64 has a unique remainder. */
  lemma WordModUnique(x: int, q: int, r: int)
    requires x == q * WordSpan + r && 0 <= r < WordSpan
    ensures x % WordSpan == r
  {
  }
}

/** Failure-carrying results, in the style of Dafny's standard wrappers. */
module Wrappers {

  datatype Option<+T> = None | Some(value: T)

  datatype Result<+T, +E> = Success(value: T) | Failure(error: E)
}
