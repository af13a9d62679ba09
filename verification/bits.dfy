/**
  Bit arithmetic on basis-state indices.

  An index `i` of the amplitude array encodes qubit `b` as bit `b` of `i`
  (little-endian). The engine tests that bit with `i & (1 << b)` and sets
  it with `i | (1 << b)`; here `1 << b` is `Pow2(b)`, the bit test is
  `HasBit` and toggling the bit is `FlipBit` (the `i XOR 2^b` partner).
*/
module Bits {

  /** 2^n, the bit weight of qubit n. */
  function Pow2(n: nat): (r: nat)
    ensures r >= 1
  {
    if n == 0 then 1 else 2 * Pow2(n - 1)
  }

  /** Bit `b` of `i` is 1: what `i & (1 << b)` being non-zero tests. */
  predicate HasBit(i: nat, b: nat)
  {
    if b == 0 then i % 2 == 1 else HasBit(i / 2, b - 1)
  }

  /** An index below 2^b has no bit at position b or above. */
  lemma {:induction false} BitBelow(i: nat, b: nat)
    requires i < Pow2(b)
    ensures !HasBit(i, b)
  {
    if b > 0 {
      BitBelow(i / 2, b - 1);
    }
  }

  /** An index whose bit b is set is at least 2^b. */
  lemma BitSetIsLarge(i: nat, b: nat)
    requires HasBit(i, b)
    ensures i >= Pow2(b)
  {
    if i < Pow2(b) {
      BitBelow(i, b);
    }
  }

  /** The index whose bit `b` differs from `i`'s and whose other bits agree: `i XOR 2^b`. */
  function FlipBit(i: nat, b: nat): nat
  {
    if HasBit(i, b) then
      BitSetIsLarge(i, b);
      i - Pow2(b)
    else
      i + Pow2(b)
  }

  /** Flipping bit `b` halves to flipping bit `b - 1` of the halved index and keeps the lowest bit. */
  lemma FlipBitHalves(i: nat, b: nat)
    requires b > 0
    ensures FlipBit(i, b) / 2 == FlipBit(i / 2, b - 1)
    ensures FlipBit(i, b) % 2 == i % 2
  {
    assert Pow2(b) == 2 * Pow2(b - 1);
    assert HasBit(i, b) == HasBit(i / 2, b - 1);
  }

  /** Flipping bit `b` toggles bit `b` and leaves every other bit as it was. */
  lemma {:induction false} FlipBitBits(i: nat, b: nat, c: nat)
    ensures HasBit(FlipBit(i, b), c) == if c == b then !HasBit(i, b) else HasBit(i, c)
  {
    if b == 0 {
      if c > 0 {
        assert FlipBit(i, b) / 2 == i / 2;
      }
    } else {
      FlipBitHalves(i, b);
      if c > 0 {
        FlipBitBits(i / 2, b - 1, c - 1);
      }
    }
  }

  /** Flipping the same bit twice gives the index back. */
  lemma FlipBitTwice(i: nat, b: nat)
    ensures FlipBit(FlipBit(i, b), b) == i
  {
    FlipBitBits(i, b, b);
  }

  /** Flipping a bit below n keeps an index below 2^n inside the array. */
  lemma {:induction false} FlipBitInRange(i: nat, b: nat, n: nat)
    requires i < Pow2(n) && b < n
    ensures FlipBit(i, b) < Pow2(n)
  {
    if b == 0 {
      assert Pow2(n) == 2 * Pow2(n - 1);
    } else {
      FlipBitHalves(i, b);
      FlipBitInRange(i / 2, b - 1, n - 1);
    }
  }

  /** Adding a higher bit weight 2^m does not change bit t < m. */
  lemma {:induction false} HighBitKeepsLowBits(j: nat, m: nat, t: nat)
    requires t < m
    ensures HasBit(j + Pow2(m), t) == HasBit(j, t)
  {
    assert Pow2(m) == 2 * Pow2(m - 1);
    if t > 0 {
      assert (j + Pow2(m)) / 2 == j / 2 + Pow2(m - 1);
      HighBitKeepsLowBits(j / 2, m - 1, t - 1);
    }
  }
}
