/** Integers of 16 and 32 bits, which wrap around where the source stores them. */
module FixedPoint {

  /** Stored in 16 bits. */
  function W16(x: int): (y: int)
    ensures -32768 <= y < 32768
  {
    (x + 32768) % 65536 - 32768
  }

  /** Stored in 32 bits. */
  function W32(x: int): (y: int)
    ensures -0x8000_0000 <= y < 0x8000_0000
  {
    (x + 0x8000_0000) % 0x1_0000_0000 - 0x8000_0000
  }

  predicate Fits16(x: int) {
    -32768 <= x < 32768
  }

  predicate Fits32(x: int) {
    -0x8000_0000 <= x < 0x8000_0000
  }

  lemma Fitting(x: int)
    ensures Fits16(x) ==> W16(x) == x
    ensures Fits32(x) ==> W32(x) == x
  {
  }

  lemma W16Unique(x: int, y: int, k: int)
    requires Fits16(y) && x == y + 65536 * k
    ensures W16(x) == y
  {
  }

  lemma W16Quotient(x: int) returns (k: int)
    ensures x == W16(x) + 65536 * k
  {
    k := (x + 32768) / 65536;
  }

  /** Wrapping part of a sum before the whole is the same as wrapping the whole. */
  lemma W16Inner(a: int, x: int, b: int)
    ensures W16(a * W16(x) + b) == W16(a * x + b)
  {
    var k := W16Quotient(x);
    var m := W16Quotient(a * W16(x) + b);
    assert a * x == a * W16(x) + 65536 * (a * k);
    W16Unique(a * x + b, W16(a * W16(x) + b), m + a * k);
  }

  function Square(t: int): (s: int)
    ensures s >= 0
  {
    SquareNonNegative(t);
    t * t
  }

  lemma SquareNonNegative(t: int)
    ensures t * t >= 0
  {
    if t < 0 {
      assert t * t == (-t) * (-t);
    }
  }

  lemma ProductMonotone(t: nat, n: nat)
    requires t <= n
    ensures t * t <= n * n
  {
    assert (n - t) * t >= 0;
    assert n * (n - t) >= 0;
  }

  /** Multiplication of a 16-bit number by a 32-bit one in two halves, dropping 15 bits. */
  function MultQ15(w: int, b: int): int {
    W32(w * W16(b / 32768) + w * (b % 32768) / 32768)
  }
}
