/**
  Every gate the engine applies keeps the sum of squared magnitudes of the
  amplitudes, so the state `runCircuit` returns has total probability 1
  (given 2 h^2 == 1).

  The proof works pair by pair: a single-qubit gate on qubit t and a
  controlled swap on target t each replace the pair (j, j XOR 2^t) by a
  pair with the same squared-magnitude sum, and a sequence of length 2^n
  splits into those pairs.
*/
module Probability {
  import opened Complex
  import opened Bits
  import opened Gates
  import opened Engine
  import opened EngineProperties

  /** The sum of the squared magnitudes of the amplitudes. */
  function Norm(s: seq<Complex>): real
  {
    if |s| == 0 then 0.0 else MagnitudeSq(s[0]) + Norm(s[1..])
  }

  lemma {:induction false} NormAppend(a: seq<Complex>, b: seq<Complex>)
    ensures Norm(a + b) == Norm(a) + Norm(b)
  {
    if |a| == 0 {
      assert a + b == b;
    } else {
      assert (a + b)[1..] == a[1..] + b;
      NormAppend(a[1..], b);
    }
  }

  /** The squared magnitudes of a and b, summed position by position. */
  function PairSum(a: seq<Complex>, b: seq<Complex>): real
    requires |a| == |b|
  {
    if |a| == 0 then 0.0 else MagnitudeSq(a[0]) + MagnitudeSq(b[0]) + PairSum(a[1..], b[1..])
  }

  lemma {:induction false} PairSumIsNorm(a: seq<Complex>, b: seq<Complex>)
    requires |a| == |b|
    ensures PairSum(a, b) == Norm(a) + Norm(b)
  {
    if |a| > 0 {
      PairSumIsNorm(a[1..], b[1..]);
    }
  }

  /** Two pairings whose sums agree position by position have equal totals. */
  lemma {:induction false} PairSumAgree(a: seq<Complex>, b: seq<Complex>, c: seq<Complex>, d: seq<Complex>)
    requires |a| == |b| == |c| == |d|
    requires forall k :: 0 <= k < |a| ==>
      MagnitudeSq(c[k]) + MagnitudeSq(d[k]) == MagnitudeSq(a[k]) + MagnitudeSq(b[k])
    ensures PairSum(c, d) == PairSum(a, b)
  {
    if |a| > 0 {
      PairSumAgree(a[1..], b[1..], c[1..], d[1..]);
    }
  }

  /** For every pair (j, j XOR 2^t), r and s have the same squared-magnitude sum. */
  predicate PairNormsAgree(s: seq<Complex>, r: seq<Complex>, t: nat)
    requires |s| == |r|
  {
    forall j :: 0 <= j < |s| && !HasBit(j, t) && FlipBit(j, t) < |s| ==>
      MagnitudeSq(r[j]) + MagnitudeSq(r[FlipBit(j, t)]) == MagnitudeSq(s[j]) + MagnitudeSq(s[FlipBit(j, t)])
  }

  /** Pairs of the top qubit are the entries k and k + half. */
  lemma TopHalvesAgree(s: seq<Complex>, r: seq<Complex>, n: nat, k: nat)
    requires |s| == Pow2(n) && |r| == Pow2(n) && n >= 1 && k < Pow2(n - 1)
    requires PairNormsAgree(s, r, n - 1)
    ensures Pow2(n) == 2 * Pow2(n - 1)
    ensures MagnitudeSq(r[k]) + MagnitudeSq(r[k + Pow2(n - 1)]) == MagnitudeSq(s[k]) + MagnitudeSq(s[k + Pow2(n - 1)])
  {
    assert Pow2(n) == 2 * Pow2(n - 1);
    BitBelow(k, n - 1);
    assert FlipBit(k, n - 1) == k + Pow2(n - 1);
  }

  /** Agreement on the pairs of the top qubit makes the sums agree. */
  lemma TopPairs(s: seq<Complex>, r: seq<Complex>, n: nat)
    requires |s| == Pow2(n) && |r| == Pow2(n) && n >= 1
    requires PairNormsAgree(s, r, n - 1)
    ensures Norm(r) == Norm(s)
  {
    var half := Pow2(n - 1);
    assert Pow2(n) == 2 * half;
    var sa, sb := s[..half], s[half..];
    var ra, rb := r[..half], r[half..];
    assert s == sa + sb && r == ra + rb;
    forall k | 0 <= k < half
      ensures MagnitudeSq(ra[k]) + MagnitudeSq(rb[k]) == MagnitudeSq(sa[k]) + MagnitudeSq(sb[k])
    {
      TopHalvesAgree(s, r, n, k);
    }
    NormAppend(sa, sb);
    NormAppend(ra, rb);
    PairSumIsNorm(sa, sb);
    PairSumIsNorm(ra, rb);
    PairSumAgree(sa, sb, ra, rb);
  }

  /** Pairs of a lower qubit lie within one half: agreement carries over to both halves. */
  lemma LowPairs(s: seq<Complex>, r: seq<Complex>, n: nat, t: nat)
    requires |s| == Pow2(n) && |r| == Pow2(n) && t < n - 1
    requires PairNormsAgree(s, r, t)
    ensures Pow2(n) == 2 * Pow2(n - 1)
    ensures PairNormsAgree(s[..Pow2(n - 1)], r[..Pow2(n - 1)], t)
    ensures PairNormsAgree(s[Pow2(n - 1)..], r[Pow2(n - 1)..], t)
  {
    var half := Pow2(n - 1);
    assert Pow2(n) == 2 * half;
    var sb, rb := s[half..], r[half..];
    forall j | 0 <= j < half && !HasBit(j, t) && FlipBit(j, t) < half
      ensures MagnitudeSq(rb[j]) + MagnitudeSq(rb[FlipBit(j, t)]) == MagnitudeSq(sb[j]) + MagnitudeSq(sb[FlipBit(j, t)])
    {
      HighBitKeepsLowBits(j, n - 1, t);
      assert FlipBit(j + half, t) == FlipBit(j, t) + half;
    }
  }

  /** Agreement on every pair of qubit t gives agreement of the whole sum. */
  lemma {:induction false} PairedNorm(s: seq<Complex>, r: seq<Complex>, n: nat, t: nat)
    requires |s| == Pow2(n) && |r| == Pow2(n) && t < n
    requires PairNormsAgree(s, r, t)
    ensures Norm(r) == Norm(s)
  {
    if t == n - 1 {
      TopPairs(s, r, n);
    } else {
      LowPairs(s, r, n, t);
      var half := Pow2(n - 1);
      var sa, sb := s[..half], s[half..];
      var ra, rb := r[..half], r[half..];
      assert s == sa + sb && r == ra + rb;
      NormAppend(sa, sb);
      NormAppend(ra, rb);
      PairedNorm(sa, ra, n - 1, t);
      PairedNorm(sb, rb, n - 1, t);
    }
  }

  /** Matrix m keeps |a|^2 + |b|^2 on every pair. */
  ghost predicate KeepsPairNorm(m: Matrix)
  {
    forall a: Complex, b: Complex ::
      MagnitudeSq(PairImage(m, a, b).0) + MagnitudeSq(PairImage(m, a, b).1) == MagnitudeSq(a) + MagnitudeSq(b)
  }

  lemma XKeepsPairNorm()
    ensures KeepsPairNorm(XMatrix)
  {
    forall a: Complex, b: Complex
      ensures MagnitudeSq(PairImage(XMatrix, a, b).0) + MagnitudeSq(PairImage(XMatrix, a, b).1) == MagnitudeSq(a) + MagnitudeSq(b)
    {
      MultiplyOneZero(a);
      MultiplyOneZero(b);
      AddZeroCommutes(a, Zero);
      AddZeroCommutes(b, Zero);
    }
  }

  lemma SKeepsPairNorm()
    ensures KeepsPairNorm(SMatrix)
  {
    forall a: Complex, b: Complex
      ensures MagnitudeSq(PairImage(SMatrix, a, b).0) + MagnitudeSq(PairImage(SMatrix, a, b).1) == MagnitudeSq(a) + MagnitudeSq(b)
    {
      MultiplyOneZero(a);
      MultiplyOneZero(b);
      AddZeroCommutes(a, Zero);
      AddZeroCommutes(Multiply(I, b), Zero);
      MagnitudeSqMultiply(I, b);
      assert MagnitudeSq(I) == 1.0;
    }
  }

  lemma TKeepsPairNorm(h: real)
    requires 2.0 * h * h == 1.0
    ensures KeepsPairNorm(TMatrix(h))
  {
    var w := Create(h, h);
    assert MagnitudeSq(w) == 1.0;
    forall a: Complex, b: Complex
      ensures MagnitudeSq(PairImage(TMatrix(h), a, b).0) + MagnitudeSq(PairImage(TMatrix(h), a, b).1) == MagnitudeSq(a) + MagnitudeSq(b)
    {
      MultiplyOneZero(a);
      MultiplyOneZero(b);
      AddZeroCommutes(a, Zero);
      AddZeroCommutes(Multiply(w, b), Zero);
      MagnitudeSqMultiply(w, b);
    }
  }

  lemma HKeepsPairNorm(h: real)
    requires 2.0 * h * h == 1.0
    ensures KeepsPairNorm(HMatrix(h))
  {
    forall a: Complex, b: Complex
      ensures MagnitudeSq(PairImage(HMatrix(h), a, b).0) + MagnitudeSq(PairImage(HMatrix(h), a, b).1) == MagnitudeSq(a) + MagnitudeSq(b)
    {
      HadamardPairNorm(h, a, b);
    }
  }

  /** The parallelogram law: |h a + h b|^2 + |h a - h b|^2 == 2 h^2 (|a|^2 + |b|^2). */
  lemma HadamardPairNorm(h: real, a: Complex, b: Complex)
    requires 2.0 * h * h == 1.0
    ensures MagnitudeSq(PairImage(HMatrix(h), a, b).0) + MagnitudeSq(PairImage(HMatrix(h), a, b).1) == MagnitudeSq(a) + MagnitudeSq(b)
  {
    HadamardImage(h, a, b);
    SquaresOfSumAndDifference(h, a.re, b.re);
    SquaresOfSumAndDifference(h, a.im, b.im);
  }

  /** The parallelogram law for h x + h y and h x - h y when 2 h^2 == 1. */
  lemma SquaresOfSumAndDifference(h: real, x: real, y: real)
    requires 2.0 * h * h == 1.0
    ensures Square(h * x + h * y) + Square(h * x - h * y) == Square(x) + Square(y)
  {
    var k := 2.0 * h * h;
    assert Square(h * x + h * y) + Square(h * x - h * y) == k * Square(x) + k * Square(y);
  }

  /** A matrix that keeps every pair's sum keeps the whole sum. */
  lemma GateSeqKeepsNorm(s: seq<Complex>, n: nat, t: nat, m: Matrix)
    requires |s| == Pow2(n) && KeepsPairNorm(m)
    ensures Norm(GateSeq(s, n, t, m)) == Norm(s)
  {
    if t < n {
      var r := GateSeq(s, n, t, m);
      forall j | 0 <= j < |s| && !HasBit(j, t) && FlipBit(j, t) < |s|
        ensures MagnitudeSq(r[j]) + MagnitudeSq(r[FlipBit(j, t)]) == MagnitudeSq(s[j]) + MagnitudeSq(s[FlipBit(j, t)])
      {
        var f := FlipBit(j, t);
        FlipBitBits(j, t, t);
        FlipBitTwice(j, t);
        FlipBitInRange(f, t, n);
        assert r[j] == PairImage(m, s[j], s[f]).0;
        assert r[f] == PairImage(m, s[j], s[f]).1;
      }
      PairedNorm(s, r, n, t);
    }
  }

  /** A controlled swap moves amplitudes between partners, keeping the sum. */
  lemma SwapSeqKeepsNorm(s: seq<Complex>, n: nat, cs: seq<nat>, t: nat)
    requires |s| == Pow2(n)
    ensures Norm(SwapSeq(s, n, cs, t)) == Norm(s)
  {
    if AllBelow(cs, n) && t < n {
      var r := SwapSeq(s, n, cs, t);
      forall j | 0 <= j < |s| && !HasBit(j, t) && FlipBit(j, t) < |s|
        ensures MagnitudeSq(r[j]) + MagnitudeSq(r[FlipBit(j, t)]) == MagnitudeSq(s[j]) + MagnitudeSq(s[FlipBit(j, t)])
      {
        var f := FlipBit(j, t);
        FlipBitInRange(f, t, n);
        SwapsPartner(j, cs, t);
        FlipBitTwice(j, t);
      }
      PairedNorm(s, r, n, t);
    }
  }

  /** Every gate keeps the sum of squared magnitudes. */
  lemma StepKeepsNorm(s: seq<Complex>, n: nat, g: Gate, h: real)
    requires |s| == Pow2(n) && 2.0 * h * h == 1.0
    ensures Norm(Step(s, n, g, h)) == Norm(s)
  {
    match g
    case H(t) =>
      HKeepsPairNorm(h);
      GateSeqKeepsNorm(s, n, t, HMatrix(h));
    case X(t) =>
      XKeepsPairNorm();
      GateSeqKeepsNorm(s, n, t, XMatrix);
    case S(t) =>
      SKeepsPairNorm();
      GateSeqKeepsNorm(s, n, t, SMatrix);
    case T(t) =>
      TKeepsPairNorm(h);
      GateSeqKeepsNorm(s, n, t, TMatrix(h));
    case CNOT(c, t) =>
      SwapSeqKeepsNorm(s, n, [c], t);
    case CCNOT(c1, c2, t) =>
      SwapSeqKeepsNorm(s, n, [c1, c2], t);
    case Unknown(_, _) =>
  }

  /** A whole gate list keeps the sum of squared magnitudes. */
  lemma {:induction false} ApplyKeepsNorm(s: seq<Complex>, n: nat, gates: seq<Gate>, h: real)
    requires |s| == Pow2(n) && 2.0 * h * h == 1.0
    ensures Norm(Apply(s, n, gates, h)) == Norm(s)
    decreases |gates|
  {
    if |gates| > 0 {
      StepKeepsNorm(s, n, gates[0], h);
      ApplyKeepsNorm(Step(s, n, gates[0], h), n, gates[1..], h);
    }
  }

  lemma {:induction false} NormZeros(s: seq<Complex>)
    requires forall j :: 0 <= j < |s| ==> s[j] == Zero
    ensures Norm(s) == 0.0
  {
    if |s| > 0 {
      NormZeros(s[1..]);
    }
  }

  /** Past the first entry, the initial state is all zeros. */
  lemma InitialTail(n: nat)
    ensures forall j :: 0 <= j < |Initial(n)[1..]| ==> Initial(n)[1..][j] == Zero
  {
    var s := Initial(n);
    forall j | 0 <= j < |s[1..]|
      ensures s[1..][j] == Zero
    {
      assert s[1..][j] == s[j + 1];
    }
  }

  /** |00...0> has total probability 1. */
  lemma InitialNorm(n: nat)
    ensures Norm(Initial(n)) == 1.0
  {
    var s := Initial(n);
    InitialTail(n);
    NormZeros(s[1..]);
    UnitHead(s);
  }

  /** One followed by zero weight has weight one. */
  lemma UnitHead(s: seq<Complex>)
    requires |s| >= 1 && s[0] == One && Norm(s[1..]) == 0.0
    ensures Norm(s) == 1.0
  {
    assert Norm(s) == MagnitudeSq(s[0]) + Norm(s[1..]);
    MagnitudeSqOne();
  }

  lemma MagnitudeSqOne()
    ensures MagnitudeSq(One) == 1.0
  {
    assert Square(1.0) == 1.0 && Square(0.0) == 0.0;
  }

  /** The amplitudes `runCircuit` returns have total probability 1. */
  lemma RunIsNormalised(n: nat, gates: seq<Gate>, h: real)
    requires 2.0 * h * h == 1.0
    ensures Norm(Run(n, gates, h)) == 1.0
  {
    InitialNorm(n);
    ApplyKeepsNorm(Initial(n), n, gates, h);
  }
}
