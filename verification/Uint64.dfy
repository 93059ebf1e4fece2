/** Unsigned 64-bit words as the Go source uses them: values below 2^64, with
    addition and subtraction that wrap around. */
module Uint64 {

  const MOD: int := 0x1_0000_0000_0000_0000

  type U64 = x: int | 0 <= x < MOD witness 0

  /** The word that x is stored as: x brought into range in steps of 2^64. */
  function Wrap(x: int): U64
    decreases if x < 0 then MOD - x else x
  {
    if x < 0 then Wrap(x + MOD) else if x >= MOD then Wrap(x - MOD) else x
  }

  /** In other words the remainder modulo 2^64. */
  lemma {:induction false} WrapIsRemainder(x: int)
    ensures Wrap(x) == x % MOD
    decreases if x < 0 then MOD - x else x
  {
    if x < 0 {
      WrapIsRemainder(x + MOD);
    } else if x >= MOD {
      WrapIsRemainder(x - MOD);
    }
  }

  lemma SmallWord(x: int)
    requires 0 <= x < MOD
    ensures Wrap(x) == x
  {}

  /** Two integers that differ by a multiple of 2^64 are the same word. */
  lemma {:induction false} WrapShift(x: int, k: int)
    ensures Wrap(x + k * MOD) == Wrap(x)
    decreases if k < 0 then -k else k
  {
    if k > 0 {
      WrapShift(x, k - 1);
      WrapOnce(x + (k - 1) * MOD);
    } else if k < 0 {
      WrapShift(x, k + 1);
      WrapOnce(x + k * MOD);
    }
  }

  lemma WrapOnce(x: int)
    ensures Wrap(x + MOD) == Wrap(x)
  {}

  /** How often a word overflows when it is given the value x. */
  function Overflows(x: nat): nat {
    x / MOD
  }

  lemma WrapCount(x: nat)
    ensures Wrap(x) == x - MOD * Overflows(x)
  {
    WrapIsRemainder(x);
  }

  /** Subtracting what a word still holds does not wrap around. */
  lemma WrapDown(x: int, n: nat)
    requires n <= Wrap(x)
    ensures Wrap(x - n) == Wrap(x) - n
  {
    var taken: int := n;
    WrapAdd(x, 0 - taken);
  }

  /** Wrapping early or late makes no difference to a sum. */
  lemma WrapAdd(x: int, y: int)
    ensures Wrap(Wrap(x) + y) == Wrap(x + y)
  {
    WrapIsRemainder(x);
    assert x == Wrap(x) + (x / MOD) * MOD;
    WrapShift(Wrap(x) + y, x / MOD);
  }

  /**
   * The library's overflow-safe a * b / c. Its body is not part of the
   * repository: the quotient is exact whenever it fits a word, and `over`
   * stands for whatever the library answers when it does not.
   */
  function SafeMulDiv(over: (U64, U64, U64) -> U64, a: U64, b: U64, c: U64): (r: U64)
    requires c != 0
  {
    if a * b / c < MOD then MulDivBounds(a, b, c); a * b / c else over(a, b, c)
  }

  lemma Distribute(x: int, y: int, z: int)
    ensures (x + y) * z == x * z + y * z
    ensures z * (x + y) == z * x + z * y
    ensures (x - y) * z == x * z - y * z
    ensures z * (x - y) == z * x - z * y
  {}

  lemma MulMonotone(a: nat, b: int, c: int)
    requires b <= c
    ensures a * b <= a * c
  {
    Distribute(c, b, a);
    assert 0 <= a * (c - b);
  }

  lemma MulCancel(q: int, a: int, c: nat)
    requires 0 < c && q * c <= a * c
    ensures q <= a
  {
    assert (a - q) * c >= 0;
  }

  /** What a floor quotient is worth. */
  lemma MulDivBounds(a: nat, b: nat, c: nat)
    requires c != 0
    ensures 0 <= a * b / c
    ensures a * b / c * c <= a * b < a * b / c * c + c
    ensures b <= c ==> a * b / c <= a
  {
    var q := a * b / c;
    assert a * b == q * c + a * b % c;
    if b <= c {
      MulMonotone(a, b, c);
      MulCancel(q, a, c);
    }
  }

  lemma WrapSum(x: int, y: int)
    ensures Wrap(Wrap(x) + Wrap(y)) == Wrap(x + y)
  {
    WrapAdd(y, Wrap(x));
    WrapAdd(x, y);
  }

}
