/** Go's `int32`, whose addition wraps around in two's complement. */
module Int32 {

  const MinInt32: int := -0x8000_0000
  const MaxInt32: int := 0x7fff_ffff
  const Modulus: int := 0x1_0000_0000

  type int32 = x: int | MinInt32 <= x <= MaxInt32

  /** The int32 a mathematical integer wraps to. */
  function Wrap(x: int): (r: int32)
    ensures (x - r) % Modulus == 0
    ensures MinInt32 <= x <= MaxInt32 ==> r == x
  {
    (x - MinInt32) % Modulus + MinInt32
  }

  /** `a + b` on two Go int32 values. */
  function Add(a: int32, b: int32): (r: int32)
    ensures MinInt32 <= a + b <= MaxInt32 ==> r == a + b
    ensures (a + b - r) % Modulus == 0
  {
    Wrap(a + b)
  }

  /** Wrapping after every addition is the same as wrapping once at the end. */
  lemma WrapThenAdd(x: int, y: int)
    ensures Wrap(Wrap(x) + y) == Wrap(x + y)
  {
  }
}
