/** Go's `int32`: two's-complement 32-bit integers whose `*` and `-` wrap
    around modulo 2^32 instead of failing. */
module GoInt32 {

  const MinInt32: int := -0x8000_0000
  const MaxInt32: int := 0x7fff_ffff
  const Modulus: int := 0x1_0000_0000

  type Int32 = x: int | MinInt32 <= x <= MaxInt32

  predicate InRange(x: int) {
    MinInt32 <= x <= MaxInt32
  }

  /** The int32 that an exact integer result wraps to: the unique value in
      range that agrees with `x` modulo 2^32. */
  function Wrap(x: int): (r: Int32)
    ensures InRange(x) ==> r == x
    ensures (x - r) % Modulus == 0
  {
    (x - MinInt32) % Modulus + MinInt32
  }

  /** Wrapping depends only on the residue modulo 2^32. */
  lemma WrapCongruent(x: int, y: int, k: int)
    requires x == y + k * Modulus
    ensures Wrap(x) == Wrap(y)
  {
    assert (x - MinInt32) % Modulus == (y - MinInt32) % Modulus;
  }

  /** Wrapping an intermediate result before subtracting does not change the
      wrapped difference. */
  lemma WrapSub(a: int, b: int)
    ensures Wrap(Wrap(a) - b) == Wrap(a - b)
  {
    var k := (a - Wrap(a)) / Modulus;
    assert a - Wrap(a) == k * Modulus;
    WrapCongruent(a - b, Wrap(a) - b, k);
  }

  /** `a * b` on Go int32 operands. */
  function Mul(a: Int32, b: Int32): (r: Int32)
    ensures InRange(a * b) ==> r == a * b
  {
    Wrap(a * b)
  }

  /** `a - b` on Go int32 operands. */
  function Sub(a: Int32, b: Int32): (r: Int32)
    ensures InRange(a - b) ==> r == a - b
  {
    Wrap(a - b)
  }
}
