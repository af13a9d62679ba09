/**
  The dense state-vector simulator (src/lib/quantum/engine.js).

  A `StateVector` over n qubits holds 2^n complex amplitudes; index `i`
  encodes qubit `b` as bit `b` of `i`. Single-qubit gates mix each pair
  (i, i | 2^t) with a 2x2 matrix into a fresh buffer; CNOT and CCNOT swap
  pairs of a copied buffer when the control bits are set. `RunCircuit`
  folds a gate list over a freshly built state.

  Each method is proved against a function on sequences (`GateSeq`,
  `SwapSeq`, `Step`, `Run`); the properties of the simulator are lemmas
  about those functions.

  The entries 1/sqrt(2) of H and sqrt(2)/2 of T are the same real number;
  the model takes it as a parameter `h`, and the lemmas that need its value
  require `2 h^2 == 1`.
*/
module Engine {
  import opened Complex
  import opened Bits
  import opened Gates

  /** A 2x2 gate matrix [[m00, m01], [m10, m11]]. */
  datatype Matrix = Matrix(m00: Complex, m01: Complex, m10: Complex, m11: Complex)

  /** Hadamard, with h standing for 1/sqrt(2). */
  function HMatrix(h: real): Matrix
  {
    Matrix(Create(h, 0.0), Create(h, 0.0), Create(h, 0.0), Create(-h, 0.0))
  }

  const XMatrix: Matrix := Matrix(Zero, One, One, Zero)

  const SMatrix: Matrix := Matrix(One, Zero, Zero, I)

  /** The T gate, with h standing for sqrt(2)/2. */
  function TMatrix(h: real): Matrix
  {
    Matrix(One, Zero, Zero, Create(h, h))
  }

  // ---------------------------------------------------------------------
  // Specification: one gate on a sequence of amplitudes
  // ---------------------------------------------------------------------

  /** The pair (a, b) after matrix m: (m00 a + m01 b, m10 a + m11 b). */
  function PairImage(m: Matrix, a: Complex, b: Complex): (Complex, Complex)
  {
    (Add(Multiply(m.m00, a), Multiply(m.m01, b)), Add(Multiply(m.m10, a), Multiply(m.m11, b)))
  }

  /**
    The new amplitude at j under matrix m on qubit t: j's pair is (a, b),
    a at the index with bit t clear and b at the index with bit t set.
  */
  function Mix(m: Matrix, s: seq<Complex>, t: nat, j: nat): Complex
    requires j < |s| && FlipBit(j, t) < |s|
  {
    if HasBit(j, t) then PairImage(m, s[FlipBit(j, t)], s[j]).1
    else PairImage(m, s[j], s[FlipBit(j, t)]).0
  }

  /** `applyGate(t, m)` on amplitudes s of an n-qubit state: no change when t >= n. */
  function GateSeq(s: seq<Complex>, n: nat, t: nat, m: Matrix): (r: seq<Complex>)
    requires |s| == Pow2(n)
    ensures |r| == |s|
  {
    if t >= n then s
    else seq(|s|, j requires 0 <= j < |s| => FlipBitInRange(j, t, n); Mix(m, s, t, j))
  }

  /** Every control bit of cs is set in j. */
  predicate ControlsSet(j: nat, cs: seq<nat>)
  {
    forall k :: 0 <= k < |cs| ==> HasBit(j, cs[k])
  }

  /** Every qubit of cs is below n. */
  predicate AllBelow(cs: seq<nat>, n: nat)
  {
    forall k :: 0 <= k < |cs| ==> cs[k] < n
  }

  /**
    The pair of j and j XOR 2^t is swapped: its member with bit t clear
    has every control bit set.
  */
  predicate Swaps(j: nat, cs: seq<nat>, t: nat)
  {
    if HasBit(j, t) then ControlsSet(FlipBit(j, t), cs) else ControlsSet(j, cs)
  }

  /** The new amplitude at j: its partner's when the pair is swapped, its own otherwise. */
  function Swapped(s: seq<Complex>, cs: seq<nat>, t: nat, j: nat): Complex
    requires j < |s| && FlipBit(j, t) < |s|
  {
    if Swaps(j, cs, t) then s[FlipBit(j, t)] else s[j]
  }

  /**
    `applyCNOT(c, t)` (cs == [c]) and `applyCCNOT(c1, c2, t)` (cs == [c1, c2])
    on amplitudes s: no change when an operand is out of range.
  */
  function SwapSeq(s: seq<Complex>, n: nat, cs: seq<nat>, t: nat): (r: seq<Complex>)
    requires |s| == Pow2(n)
    ensures |r| == |s|
  {
    if !AllBelow(cs, n) || t >= n then s
    else seq(|s|, j requires 0 <= j < |s| => FlipBitInRange(j, t, n); Swapped(s, cs, t, j))
  }

  /** One gate of `runCircuit`'s switch; an unrecognised type is skipped. */
  function Step(s: seq<Complex>, n: nat, g: Gate, h: real): (r: seq<Complex>)
    requires |s| == Pow2(n)
    ensures |r| == |s|
  {
    match g
    case H(t) => GateSeq(s, n, t, HMatrix(h))
    case X(t) => GateSeq(s, n, t, XMatrix)
    case S(t) => GateSeq(s, n, t, SMatrix)
    case T(t) => GateSeq(s, n, t, TMatrix(h))
    case CNOT(c, t) => SwapSeq(s, n, [c], t)
    case CCNOT(c1, c2, t) => SwapSeq(s, n, [c1, c2], t)
    case Unknown(_, _) => s
  }

  /** The gates applied left to right. */
  function Apply(s: seq<Complex>, n: nat, gates: seq<Gate>, h: real): (r: seq<Complex>)
    requires |s| == Pow2(n)
    ensures |r| == |s|
    decreases |gates|
  {
    if |gates| == 0 then s else Apply(Step(s, n, gates[0], h), n, gates[1..], h)
  }

  /** |00...0>: ONE at index 0 and ZERO elsewhere. */
  function Initial(n: nat): (r: seq<Complex>)
    ensures |r| == Pow2(n)
  {
    seq(Pow2(n), j => if j == 0 then One else Zero)
  }

  /** The amplitudes `runCircuit(n, gates)` ends with. */
  function Run(n: nat, gates: seq<Gate>, h: real): (r: seq<Complex>)
    ensures |r| == Pow2(n)
  {
    Apply(Initial(n), n, gates, h)
  }

  // ---------------------------------------------------------------------
  // The class
  // ---------------------------------------------------------------------

  /** The pair of j has been visited once the loop index passed its member with bit t clear. */
  predicate Done(j: nat, i: nat, t: nat)
  {
    if HasBit(j, t) then FlipBit(j, t) < i else j < i
  }

  /** Visiting index i completes j exactly when j is i, or i's partner, and i has bit t clear. */
  lemma DoneStep(j: nat, i: nat, t: nat)
    ensures Done(j, i + 1, t) == (Done(j, i, t) || (!HasBit(i, t) && (j == i || j == FlipBit(i, t))))
  {
    FlipBitBits(i, t, t);
    FlipBitBits(j, t, t);
    FlipBitTwice(i, t);
    FlipBitTwice(j, t);
    if HasBit(j, t) {
      BitSetIsLarge(j, t);
    }
    if HasBit(i, t) {
      BitSetIsLarge(i, t);
    }
  }

  /** Once the loop index reaches the end, every pair has been visited. */
  lemma AllDone(j: nat, size: nat, t: nat)
    requires j < size
    ensures Done(j, size, t)
  {
    if HasBit(j, t) {
      BitSetIsLarge(j, t);
    }
  }

  /** After visiting indices below i, cur holds s with every visited, selected pair swapped. */
  ghost predicate SwappedBelow(cur: seq<Complex>, s: seq<Complex>, cs: seq<nat>, t: nat, i: nat)
  {
    |cur| == |s| &&
    forall j :: 0 <= j < |s| ==>
      FlipBit(j, t) < |s| &&
      cur[j] == (if Done(j, i, t) && Swaps(j, cs, t) then s[FlipBit(j, t)] else s[j])
  }

  /** Visiting index i: swapping cur[i] with its partner when i's controls are set and its target bit clear. */
  lemma SwapVisit(cur: seq<Complex>, next: seq<Complex>, s: seq<Complex>, cs: seq<nat>, t: nat, i: nat)
    requires SwappedBelow(cur, s, cs, t, i) && i < |s|
    requires ControlsSet(i, cs) && !HasBit(i, t) ==>
      next == cur[i := cur[FlipBit(i, t)]][FlipBit(i, t) := cur[i]]
    requires !(ControlsSet(i, cs) && !HasBit(i, t)) ==> next == cur
    ensures SwappedBelow(next, s, cs, t, i + 1)
  {
    FlipBitBits(i, t, t);
    FlipBitTwice(i, t);
    forall j | 0 <= j < |s|
      ensures FlipBit(j, t) < |s|
      ensures next[j] == (if Done(j, i + 1, t) && Swaps(j, cs, t) then s[FlipBit(j, t)] else s[j])
    {
      DoneStep(j, i, t);
      FlipBitTwice(j, t);
      FlipBitBits(j, t, t);
    }
  }

  class StateVector {
    const numQubits: nat
    const size: nat
    var amplitudes: array<Complex>

    ghost predicate Valid()
      reads this
    {
      size == Pow2(numQubits) && amplitudes.Length == size
    }

    /** The state |00...0> of numQubits qubits. */
    constructor(numQubits: nat)
      ensures Valid() && this.numQubits == numQubits
      ensures amplitudes[0] == One
      ensures forall j :: 0 < j < size ==> amplitudes[j] == Zero
      ensures amplitudes[..] == Initial(numQubits)
    {
      this.numQubits := numQubits;
      size := Pow2(numQubits);
      var a := new Complex[Pow2(numQubits)](_ => Zero);
      a[0] := One;
      amplitudes := a;
    }

    /**
      Mixes every pair (i, i | 2^target) with m, reading only the old
      amplitudes and writing each index of a fresh buffer once.
    */
    method ApplyGate(target: nat, m: Matrix)
      requires Valid()
      modifies this
      ensures Valid()
      ensures amplitudes[..] == GateSeq(old(amplitudes[..]), numQubits, target, m)
    {
      if target >= numQubits {
        return;
      }
      ghost var s := amplitudes[..];
      ghost var r := GateSeq(s, numQubits, target, m);
      var next := new Complex[size](_ => Zero);
      var step := Pow2(target);
      var i := 0;
      while i < size
        invariant 0 <= i <= size
        invariant amplitudes[..] == s
        invariant forall j :: 0 <= j < size ==> next[j] == (if Done(j, i, target) then r[j] else Zero)
      {
        if !HasBit(i, target) {
          var idx0 := i;
          var idx1 := i + step;
          FlipBitInRange(i, target, numQubits);
          FlipBitBits(i, target, target);
          FlipBitTwice(i, target);
          var a := amplitudes[idx0];
          var b := amplitudes[idx1];
          next[idx0] := Add(Multiply(m.m00, a), Multiply(m.m01, b));
          next[idx1] := Add(Multiply(m.m10, a), Multiply(m.m11, b));
        }
        forall j | 0 <= j < size
          ensures Done(j, i + 1, target) == (Done(j, i, target) || (!HasBit(i, target) && (j == i || j == FlipBit(i, target))))
        {
          DoneStep(j, i, target);
        }
        i := i + 1;
      }
      forall j | 0 <= j < size
        ensures next[j] == r[j]
      {
        AllDone(j, size, target);
      }
      amplitudes := next;
    }

    method ApplyH(target: nat, h: real)
      requires Valid()
      modifies this
      ensures Valid()
      ensures amplitudes[..] == GateSeq(old(amplitudes[..]), numQubits, target, HMatrix(h))
    {
      ApplyGate(target, HMatrix(h));
    }

    method ApplyX(target: nat)
      requires Valid()
      modifies this
      ensures Valid()
      ensures amplitudes[..] == GateSeq(old(amplitudes[..]), numQubits, target, XMatrix)
    {
      ApplyGate(target, XMatrix);
    }

    method ApplyS(target: nat)
      requires Valid()
      modifies this
      ensures Valid()
      ensures amplitudes[..] == GateSeq(old(amplitudes[..]), numQubits, target, SMatrix)
    {
      ApplyGate(target, SMatrix);
    }

    method ApplyT(target: nat, h: real)
      requires Valid()
      modifies this
      ensures Valid()
      ensures amplitudes[..] == GateSeq(old(amplitudes[..]), numQubits, target, TMatrix(h))
    {
      ApplyGate(target, TMatrix(h));
    }

    /**
      The loop shared by CNOT and CCNOT: for each i whose control bits are
      all set and whose target bit is clear, swap next[i] and next[i | 2^t].
    */
    method SwapControlled(next: array<Complex>, cs: seq<nat>, t: nat)
      requires Valid() && next.Length == size && AllBelow(cs, numQubits) && t < numQubits
      modifies next
      ensures next[..] == SwapSeq(old(next[..]), numQubits, cs, t)
    {
      ghost var s := next[..];
      forall j | 0 <= j < size
        ensures FlipBit(j, t) < size
      {
        FlipBitInRange(j, t, numQubits);
      }
      var tStep := Pow2(t);
      var i := 0;
      while i < size
        invariant 0 <= i <= size
        invariant SwappedBelow(next[..], s, cs, t, i)
      {
        ghost var cur := next[..];
        if ControlsSet(i, cs) {
          if !HasBit(i, t) {
            var idx0 := i;
            var idx1 := i + tStep;
            FlipBitInRange(i, t, numQubits);
            FlipBitBits(i, t, t);
            // the `idx1 >= size` guard never fires
            assert idx1 < size;
            var temp := next[idx0];
            next[idx0] := next[idx1];
            next[idx1] := temp;
          }
        }
        SwapVisit(cur, next[..], s, cs, t, i);
        i := i + 1;
      }
      forall j | 0 <= j < size
        ensures Done(j, size, t)
      {
        AllDone(j, size, t);
      }
    }

    /** Swaps the target bit of every index whose control bit is set. */
    method ApplyCNOT(control: nat, target: nat)
      requires Valid()
      modifies this
      ensures Valid()
      ensures amplitudes[..] == SwapSeq(old(amplitudes[..]), numQubits, [control], target)
    {
      if control >= numQubits || target >= numQubits {
        assert !AllBelow([control], numQubits) || target >= numQubits by {
          assert [control][0] == control;
        }
        return;
      }
      var current := amplitudes;
      var next := new Complex[size](j requires 0 <= j < current.Length reads current => current[j]);
      assert next[..] == current[..];
      SwapControlled(next, [control], target);
      amplitudes := next;
    }

    /** Swaps the target bit of every index whose two control bits are set. */
    method ApplyCCNOT(control1: nat, control2: nat, target: nat)
      requires Valid()
      modifies this
      ensures Valid()
      ensures amplitudes[..] == SwapSeq(old(amplitudes[..]), numQubits, [control1, control2], target)
    {
      if control1 >= numQubits || control2 >= numQubits || target >= numQubits {
        assert !AllBelow([control1, control2], numQubits) || target >= numQubits by {
          assert [control1, control2][0] == control1 && [control1, control2][1] == control2;
        }
        return;
      }
      var current := amplitudes;
      var next := new Complex[size](j requires 0 <= j < current.Length reads current => current[j]);
      assert next[..] == current[..];
      SwapControlled(next, [control1, control2], target);
      amplitudes := next;
    }

    /** One pass of `runCircuit`'s switch: dispatch on the descriptor's type; an unknown type changes nothing. */
    method RunGate(g: Gate, h: real)
      requires Valid()
      modifies this
      ensures Valid()
      ensures amplitudes[..] == Step(old(amplitudes[..]), numQubits, g, h)
    {
      match g {
        case H(t) => ApplyH(t, h);
        case X(t) => ApplyX(t);
        case S(t) => ApplyS(t);
        case T(t) => ApplyT(t, h);
        case CNOT(c, t) => ApplyCNOT(c, t);
        case CCNOT(c1, c2, t) => ApplyCCNOT(c1, c2, t);
        case Unknown(_, _) =>  // console.warn, then the next gate
      }
    }
  }

  /** Builds |00...0> and applies the gates in order. */
  method RunCircuit(numQubits: nat, gates: seq<Gate>, h: real) returns (sv: StateVector)
    ensures sv.Valid() && sv.numQubits == numQubits
    ensures sv.amplitudes[..] == Run(numQubits, gates, h)
  {
    sv := new StateVector(numQubits);
    var k := 0;
    while k < |gates|
      invariant 0 <= k <= |gates|
      invariant fresh(sv)
      invariant sv.Valid() && sv.numQubits == numQubits
      invariant Apply(sv.amplitudes[..], numQubits, gates[k..], h) == Run(numQubits, gates, h)
    {
      assert gates[k..][1..] == gates[k + 1..];
      sv.RunGate(gates[k], h);
      k := k + 1;
    }
  }
}
