/**
  What the simulator promises, stated about the functions the engine's
  methods are proved against: out-of-range gates do nothing, X swaps, S and
  T multiply by a phase, H, X, CNOT and CCNOT undo themselves, CNOT and
  CCNOT flip the target only under their controls, every gate keeps the
  sum of squared magnitudes, and running a circuit is a fold.
*/
module EngineProperties {
  import opened Complex
  import opened Bits
  import opened Gates
  import opened Engine

  // ---------------------------------------------------------------------
  // No-op guards
  // ---------------------------------------------------------------------

  /** A gate with an operand at or beyond n leaves the amplitudes as they are. */
  lemma OutOfRangeIsNoOp(s: seq<Complex>, n: nat, g: Gate, h: real)
    requires |s| == Pow2(n)
    requires !OperandsBelow(g, n)
    ensures Step(s, n, g, h) == s
  {
    match g
    case CNOT(c, t) =>
      assert [c][0] == c;
    case CCNOT(c1, c2, t) =>
      assert [c1, c2][0] == c1 && [c1, c2][1] == c2;
    case _ =>
  }

  // ---------------------------------------------------------------------
  // Single-qubit gates
  // ---------------------------------------------------------------------

  /** X moves the amplitude of j XOR 2^t to j, for every j. */
  lemma XSwaps(s: seq<Complex>, n: nat, t: nat)
    requires |s| == Pow2(n) && t < n
    ensures forall j :: 0 <= j < |s| ==>
      FlipBit(j, t) < |s| && GateSeq(s, n, t, XMatrix)[j] == s[FlipBit(j, t)]
  {
    forall j | 0 <= j < |s|
      ensures FlipBit(j, t) < |s| && GateSeq(s, n, t, XMatrix)[j] == s[FlipBit(j, t)]
    {
      FlipBitInRange(j, t, n);
      MultiplyOneZero(s[j]);
      MultiplyOneZero(s[FlipBit(j, t)]);
      AddZeroCommutes(s[FlipBit(j, t)], s[j]);
    }
  }

  /** S multiplies by I every amplitude whose bit t is set and keeps the rest. */
  lemma SPhase(s: seq<Complex>, n: nat, t: nat)
    requires |s| == Pow2(n) && t < n
    ensures forall j :: 0 <= j < |s| ==>
      GateSeq(s, n, t, SMatrix)[j] == if HasBit(j, t) then Multiply(I, s[j]) else s[j]
  {
    forall j | 0 <= j < |s|
      ensures GateSeq(s, n, t, SMatrix)[j] == if HasBit(j, t) then Multiply(I, s[j]) else s[j]
    {
      FlipBitInRange(j, t, n);
      MultiplyOneZero(s[j]);
      MultiplyOneZero(s[FlipBit(j, t)]);
      AddZeroCommutes(s[j], Zero);
      AddZeroCommutes(Multiply(I, s[j]), Zero);
    }
  }

  /** T multiplies by h + hi (that is, e^(i pi/4)) every amplitude whose bit t is set and keeps the rest. */
  lemma TPhase(s: seq<Complex>, n: nat, t: nat, h: real)
    requires |s| == Pow2(n) && t < n
    ensures forall j :: 0 <= j < |s| ==>
      GateSeq(s, n, t, TMatrix(h))[j] == if HasBit(j, t) then Multiply(Create(h, h), s[j]) else s[j]
  {
    forall j | 0 <= j < |s|
      ensures GateSeq(s, n, t, TMatrix(h))[j] == if HasBit(j, t) then Multiply(Create(h, h), s[j]) else s[j]
    {
      FlipBitInRange(j, t, n);
      MultiplyOneZero(s[j]);
      MultiplyOneZero(s[FlipBit(j, t)]);
      AddZeroCommutes(s[j], Zero);
      AddZeroCommutes(Multiply(Create(h, h), s[j]), Zero);
    }
  }

  /** H applied twice gives the amplitudes back, when h * h == 1/2. */
  lemma HTwice(s: seq<Complex>, n: nat, t: nat, h: real)
    requires |s| == Pow2(n) && 2.0 * h * h == 1.0
    ensures GateSeq(GateSeq(s, n, t, HMatrix(h)), n, t, HMatrix(h)) == s
  {
    if t < n {
      var r := GateSeq(s, n, t, HMatrix(h));
      var r2 := GateSeq(r, n, t, HMatrix(h));
      forall j | 0 <= j < |s|
        ensures r2[j] == s[j]
      {
        FlipBitInRange(j, t, n);
        var f := FlipBit(j, t);
        FlipBitInRange(f, t, n);
        FlipBitBits(j, t, t);
        FlipBitTwice(j, t);
        if HasBit(j, t) {
          HadamardPairTwice(h, s[f], s[j]);
        } else {
          HadamardPairTwice(h, s[j], s[f]);
        }
      }
    }
  }

  /** The Hadamard matrix maps the pair (a, b) to (h a + h b, h a - h b). */
  lemma HadamardImage(h: real, a: Complex, b: Complex)
    ensures PairImage(HMatrix(h), a, b).0 == Create(h * a.re + h * b.re, h * a.im + h * b.im)
    ensures PairImage(HMatrix(h), a, b).1 == Create(h * a.re - h * b.re, h * a.im - h * b.im)
  {
  }

  /** On one real component: the sum and difference of h x + h y and h x - h y, scaled by h, give back x and y. */
  lemma HadamardTwiceReal(h: real, x: real, y: real)
    requires 2.0 * h * h == 1.0
    ensures h * (h * x + h * y) + h * (h * x - h * y) == x
    ensures h * (h * x + h * y) - h * (h * x - h * y) == y
  {
    var k := 2.0 * h * h;
    assert h * (h * x + h * y) + h * (h * x - h * y) == k * x;
    assert h * (h * x + h * y) - h * (h * x - h * y) == k * y;
  }

  /** The Hadamard step (a, b) -> (h a + h b, h a - h b) is its own inverse when 2 h^2 == 1. */
  lemma HadamardPairTwice(h: real, a: Complex, b: Complex)
    requires 2.0 * h * h == 1.0
    ensures var p := PairImage(HMatrix(h), a, b); PairImage(HMatrix(h), p.0, p.1) == (a, b)
  {
    var p := PairImage(HMatrix(h), a, b);
    HadamardImage(h, a, b);
    HadamardImage(h, p.0, p.1);
    HadamardTwiceReal(h, a.re, b.re);
    HadamardTwiceReal(h, a.im, b.im);
    var q := PairImage(HMatrix(h), p.0, p.1);
    assert q.0.re == a.re && q.0.im == a.im && q.1.re == b.re && q.1.im == b.im;
  }

  /** X applied twice gives the amplitudes back. */
  lemma XTwice(s: seq<Complex>, n: nat, t: nat)
    requires |s| == Pow2(n)
    ensures GateSeq(GateSeq(s, n, t, XMatrix), n, t, XMatrix) == s
  {
    if t < n {
      var r := GateSeq(s, n, t, XMatrix);
      XSwaps(s, n, t);
      XSwaps(r, n, t);
      forall j | 0 <= j < |s|
        ensures GateSeq(r, n, t, XMatrix)[j] == s[j]
      {
        FlipBitTwice(j, t);
      }
    }
  }

  // ---------------------------------------------------------------------
  // CNOT and CCNOT
  // ---------------------------------------------------------------------

  /** j and its partner j XOR 2^t are swapped together or not at all. */
  lemma SwapsPartner(j: nat, cs: seq<nat>, t: nat)
    ensures Swaps(FlipBit(j, t), cs, t) == Swaps(j, cs, t)
  {
    FlipBitBits(j, t, t);
    FlipBitTwice(j, t);
  }

  /** A controlled swap undoes itself: CNOT and CCNOT are self-inverse. */
  lemma SwapTwice(s: seq<Complex>, n: nat, cs: seq<nat>, t: nat)
    requires |s| == Pow2(n)
    ensures SwapSeq(SwapSeq(s, n, cs, t), n, cs, t) == s
  {
    if AllBelow(cs, n) && t < n {
      var r := SwapSeq(s, n, cs, t);
      forall j | 0 <= j < |s|
        ensures SwapSeq(r, n, cs, t)[j] == s[j]
      {
        FlipBitInRange(j, t, n);
        FlipBitInRange(FlipBit(j, t), t, n);
        SwapsPartner(j, cs, t);
        FlipBitTwice(j, t);
      }
    }
  }

  /** With a single control c different from t, the pair of j is swapped exactly when bit c of j is set. */
  lemma SwapsOneControl(j: nat, c: nat, t: nat)
    requires c != t
    ensures Swaps(j, [c], t) == HasBit(j, c)
  {
    assert [c][0] == c;
    FlipBitBits(j, t, c);
  }

  /** CNOT(c, t), c != t: index j takes the amplitude of j XOR 2^t when bit c of j is set, and keeps its own otherwise. */
  lemma CnotAction(s: seq<Complex>, n: nat, c: nat, t: nat)
    requires |s| == Pow2(n) && c < n && t < n && c != t
    ensures forall j :: 0 <= j < |s| ==>
      FlipBit(j, t) < |s| &&
      SwapSeq(s, n, [c], t)[j] == if HasBit(j, c) then s[FlipBit(j, t)] else s[j]
  {
    assert AllBelow([c], n) by {
      assert [c][0] == c;
    }
    forall j | 0 <= j < |s|
      ensures FlipBit(j, t) < |s| &&
        SwapSeq(s, n, [c], t)[j] == if HasBit(j, c) then s[FlipBit(j, t)] else s[j]
    {
      FlipBitInRange(j, t, n);
      SwapsOneControl(j, c, t);
    }
  }

  /** CNOT whose control is its own target changes nothing. */
  lemma CnotSameQubit(s: seq<Complex>, n: nat, t: nat)
    requires |s| == Pow2(n)
    ensures SwapSeq(s, n, [t], t) == s
  {
    if t < n {
      assert [t][0] == t;
      forall j | 0 <= j < |s|
        ensures SwapSeq(s, n, [t], t)[j] == s[j]
      {
        FlipBitInRange(j, t, n);
        FlipBitBits(j, t, t);
        assert !Swaps(j, [t], t);
      }
    }
  }

  /** With two controls different from t, the pair of j is swapped exactly when both control bits of j are set. */
  lemma SwapsTwoControls(j: nat, c1: nat, c2: nat, t: nat)
    requires c1 != t && c2 != t
    ensures Swaps(j, [c1, c2], t) == (HasBit(j, c1) && HasBit(j, c2))
  {
    assert [c1, c2][0] == c1 && [c1, c2][1] == c2;
    FlipBitBits(j, t, c1);
    FlipBitBits(j, t, c2);
  }

  /**
    CCNOT(c1, c2, t), t different from both controls: index j takes the
    amplitude of j XOR 2^t exactly when bits c1 and c2 of j are both set;
    with only one of them set it keeps its own.
  */
  lemma CcnotAction(s: seq<Complex>, n: nat, c1: nat, c2: nat, t: nat)
    requires |s| == Pow2(n) && c1 < n && c2 < n && t < n && c1 != t && c2 != t
    ensures forall j :: 0 <= j < |s| ==>
      FlipBit(j, t) < |s| &&
      SwapSeq(s, n, [c1, c2], t)[j] == if HasBit(j, c1) && HasBit(j, c2) then s[FlipBit(j, t)] else s[j]
  {
    assert AllBelow([c1, c2], n) by {
      assert [c1, c2][0] == c1 && [c1, c2][1] == c2;
    }
    forall j | 0 <= j < |s|
      ensures FlipBit(j, t) < |s| &&
        SwapSeq(s, n, [c1, c2], t)[j] == if HasBit(j, c1) && HasBit(j, c2) then s[FlipBit(j, t)] else s[j]
    {
      FlipBitInRange(j, t, n);
      SwapsTwoControls(j, c1, c2, t);
    }
  }

  /** CCNOT whose target is one of its controls changes nothing. */
  lemma CcnotTargetIsControl(s: seq<Complex>, n: nat, c1: nat, c2: nat, t: nat)
    requires |s| == Pow2(n) && (c1 == t || c2 == t)
    ensures SwapSeq(s, n, [c1, c2], t) == s
  {
    if AllBelow([c1, c2], n) && t < n {
      assert [c1, c2][0] == c1 && [c1, c2][1] == c2;
      forall j | 0 <= j < |s|
        ensures SwapSeq(s, n, [c1, c2], t)[j] == s[j]
      {
        FlipBitInRange(j, t, n);
        FlipBitBits(j, t, t);
        assert !Swaps(j, [c1, c2], t);
      }
    }
  }

  // ---------------------------------------------------------------------
  // Running a circuit
  // ---------------------------------------------------------------------

  /** Running a + b is running a, then b on the result. */
  lemma {:induction false} ApplyConcat(s: seq<Complex>, n: nat, a: seq<Gate>, b: seq<Gate>, h: real)
    requires |s| == Pow2(n)
    ensures Apply(s, n, a + b, h) == Apply(Apply(s, n, a, h), n, b, h)
    decreases |a|
  {
    if |a| == 0 {
      assert a + b == b;
    } else {
      assert (a + b)[0] == a[0];
      assert (a + b)[1..] == a[1..] + b;
      ApplyConcat(Step(s, n, a[0], h), n, a[1..], b, h);
    }
  }

  /** A gate of unrecognised type, anywhere in the list, leaves the result as if it were absent. */
  lemma UnknownSkipped(n: nat, a: seq<Gate>, kind: string, target: nat, b: seq<Gate>, h: real)
    requires !KnownKind(kind)
    ensures Run(n, a + [Unknown(kind, target)] + b, h) == Run(n, a + b, h)
  {
    var u := [Unknown(kind, target)];
    ApplyConcat(Initial(n), n, a + u, b, h);
    ApplyConcat(Initial(n), n, a, u, h);
    ApplyConcat(Initial(n), n, a, b, h);
    var mid := Apply(Initial(n), n, a, h);
    assert u[1..] == [];
    assert Apply(mid, n, u, h) == mid;
  }

  /** With no gates the result is |00...0>. */
  lemma RunEmpty(n: nat, h: real)
    ensures Run(n, [], h) == Initial(n)
    ensures Run(n, [], h)[0] == One
  {
  }

  lemma PairIs(r: seq<Complex>, a: Complex, b: Complex)
    requires |r| == 2 && r[0] == a && r[1] == b
    ensures r == [a, b]
  {
  }

  /** X on one qubit: |0> becomes |1>. */
  lemma RunXOnOneQubit(h: real)
    ensures Run(1, [X(0)], h) == [Zero, One]
  {
    assert Pow2(1) == 2;
    var s := Initial(1);
    var r := Step(s, 1, X(0), h);
    assert r[0] == Zero && r[1] == One by {
      assert s[0] == One && s[1] == Zero;
      assert FlipBit(0, 0) == 1 && FlipBit(1, 0) == 0;
      XSwaps(s, 1, 0);
    }
    PairIs(r, Zero, One);
    assert Run(1, [X(0)], h) == Apply(r, 1, [], h);
  }

  lemma QuadIs(r: seq<Complex>, a: Complex, b: Complex, c: Complex, d: Complex)
    requires |r| == 4 && r[0] == a && r[1] == b && r[2] == c && r[3] == d
    ensures r == [a, b, c, d]
  {
  }

  /** X(0) then CNOT(0, 1) on two qubits: |00> becomes |11> (index 3). */
  lemma RunXThenCnot(h: real)
    ensures Run(2, [X(0), CNOT(0, 1)], h) == [Zero, Zero, Zero, One]
  {
    var r := XOnTwoQubits(h);
    var r2 := CnotOnTwoQubits(r, h);
    var gs := [X(0), CNOT(0, 1)];
    assert gs[1..] == [CNOT(0, 1)] && gs[1..][1..] == [];
    assert Run(2, gs, h) == Apply(r2, 2, [], h);
  }

  lemma XOnTwoQubits(h: real) returns (r: seq<Complex>)
    ensures |r| == Pow2(2) && r == Step(Initial(2), 2, X(0), h)
    ensures r == [Zero, One, Zero, Zero]
  {
    assert Pow2(2) == 4;
    var s := Initial(2);
    r := Step(s, 2, X(0), h);
    assert r[0] == Zero && r[1] == One && r[2] == Zero && r[3] == Zero by {
      assert s[0] == One && s[1] == Zero && s[2] == Zero && s[3] == Zero;
      assert FlipBit(0, 0) == 1 && FlipBit(1, 0) == 0 && FlipBit(2, 0) == 3 && FlipBit(3, 0) == 2;
      XSwaps(s, 2, 0);
    }
    QuadIs(r, Zero, One, Zero, Zero);
  }

  lemma CnotOnTwoQubits(r: seq<Complex>, h: real) returns (r2: seq<Complex>)
    requires r == [Zero, One, Zero, Zero]
    ensures |r| == Pow2(2) && r2 == Step(r, 2, CNOT(0, 1), h)
    ensures r2 == [Zero, Zero, Zero, One]
  {
    assert Pow2(2) == 4;
    r2 := Step(r, 2, CNOT(0, 1), h);
    assert r2[0] == Zero && r2[1] == Zero && r2[2] == Zero && r2[3] == One by {
      assert HasBit(1, 0) && HasBit(3, 0) && !HasBit(0, 0) && !HasBit(2, 0);
      assert FlipBit(1, 1) == 3 && FlipBit(3, 1) == 1;
      CnotAction(r, 2, 0, 1);
    }
    QuadIs(r2, Zero, Zero, Zero, One);
  }
}
