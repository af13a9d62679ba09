/**
  Dropping gates that no longer fit (src/app/page.js).

  When the qubit count is lowered, the page keeps only the gates whose
  target and every present control are below the new count, and replaces
  the gate list only when something was removed.
*/
module Pruning {
  import opened Complex
  import opened Bits
  import opened Gates
  import opened Engine
  import opened EngineProperties

  /**
    The filter's callback: reject a gate whose target, or whose control,
    control1 or control2 where present, is at or above n; keep the rest.
    It keeps exactly the gates the engine acts on.
  */
  predicate Keep(g: Gate, n: int)
    ensures Keep(g, n) <==> OperandsBelow(g, n)
  {
    if g.target >= n then false
    else if g.CNOT? && g.control >= n then false
    else if g.CCNOT? && g.control1 >= n then false
    else if g.CCNOT? && g.control2 >= n then false
    else true
  }

  /** `gates.filter(...)`: the gates that fit in n qubits, in their original order. */
  function Prune(gates: seq<Gate>, n: int): (r: seq<Gate>)
    ensures |r| <= |gates|
    ensures forall g :: g in r ==> g in gates && Keep(g, n)
  {
    if |gates| == 0 then []
    else if Keep(gates[0], n) then [gates[0]] + Prune(gates[1..], n)
    else Prune(gates[1..], n)
  }

  /** The page's effect: the filtered list when it is shorter, the list itself otherwise. */
  function OnQubitCountChange(gates: seq<Gate>, n: int): (r: seq<Gate>)
    ensures r == Prune(gates, n)
  {
    var valid := Prune(gates, n);
    PruneLength(gates, n);
    if |valid| != |gates| then valid else gates
  }

  /** a is b with some elements left out, the rest in order. */
  predicate Subsequence(a: seq<Gate>, b: seq<Gate>)
    decreases |b|
  {
    if |a| == 0 then true
    else if |b| == 0 then false
    else (a[0] == b[0] && Subsequence(a[1..], b[1..])) || Subsequence(a, b[1..])
  }

  /** A gate is in the result exactly when it is in the input and fits. */
  lemma {:induction false} PruneMembership(gates: seq<Gate>, n: int, g: Gate)
    ensures g in Prune(gates, n) <==> g in gates && Keep(g, n)
  {
    if |gates| > 0 {
      PruneMembership(gates[1..], n, g);
      assert gates == [gates[0]] + gates[1..];
    }
  }

  /** Each gate that fits is kept as often as it occurs; the others are all dropped. */
  lemma {:induction false} PruneCounts(gates: seq<Gate>, n: int, g: Gate)
    ensures multiset(Prune(gates, n))[g] == if Keep(g, n) then multiset(gates)[g] else 0
  {
    if |gates| > 0 {
      PruneCounts(gates[1..], n, g);
      assert gates == [gates[0]] + gates[1..];
    }
  }

  /** The result is an order-preserving subsequence of the input. */
  lemma {:induction false} PruneIsSubsequence(gates: seq<Gate>, n: int)
    ensures Subsequence(Prune(gates, n), gates)
  {
    if |gates| > 0 {
      PruneIsSubsequence(gates[1..], n);
      var r := Prune(gates, n);
      if Keep(gates[0], n) {
        assert r[0] == gates[0] && r[1..] == Prune(gates[1..], n);
      }
    }
  }

  /** Every gate of the list fits in n qubits. */
  predicate AllKept(gates: seq<Gate>, n: int)
  {
    forall k :: 0 <= k < |gates| ==> Keep(gates[k], n)
  }

  /** Every gate fits exactly when the first one does and every later one does. */
  lemma AllKeptSplit(gates: seq<Gate>, n: int)
    requires |gates| > 0
    ensures AllKept(gates, n) <==> Keep(gates[0], n) && AllKept(gates[1..], n)
  {
    if Keep(gates[0], n) && AllKept(gates[1..], n) {
      forall k | 0 <= k < |gates|
        ensures Keep(gates[k], n)
      {
        if k > 0 {
          assert gates[k] == gates[1..][k - 1];
        }
      }
    }
  }

  /** The result is as long as the input exactly when every gate fits, and then it is the input. */
  lemma {:induction false} PruneLength(gates: seq<Gate>, n: int)
    ensures |Prune(gates, n)| == |gates| <==> AllKept(gates, n)
    ensures |Prune(gates, n)| == |gates| ==> Prune(gates, n) == gates
  {
    if |gates| > 0 {
      PruneLength(gates[1..], n);
      AllKeptSplit(gates, n);
      if Keep(gates[0], n) {
        assert gates == [gates[0]] + gates[1..];
      }
    }
  }

  /** Pruning twice is pruning once, so a second pass never calls `setGates`. */
  lemma PruneIdempotent(gates: seq<Gate>, n: int)
    ensures Prune(Prune(gates, n), n) == Prune(gates, n)
  {
    var r := Prune(gates, n);
    assert AllKept(r, n) by {
      forall k | 0 <= k < |r|
        ensures Keep(r[k], n)
      {
        assert r[k] in r;
      }
    }
    PruneLength(r, n);
    assert |Prune(r, n)| == |r|;
  }

  /** Running the pruned list gives the state the original list gives: the engine skips the dropped gates. */
  lemma {:induction false} ApplyPruned(s: seq<Complex>, n: nat, gates: seq<Gate>, h: real)
    requires |s| == Pow2(n)
    ensures Apply(s, n, Prune(gates, n), h) == Apply(s, n, gates, h)
    decreases |gates|
  {
    if |gates| > 0 {
      var g := gates[0];
      if Keep(g, n) {
        ApplyPruned(Step(s, n, g, h), n, gates[1..], h);
        var r := [g] + Prune(gates[1..], n);
        assert r[0] == g && r[1..] == Prune(gates[1..], n);
      } else {
        OutOfRangeIsNoOp(s, n, g, h);
        ApplyPruned(s, n, gates[1..], h);
      }
    }
  }

  lemma RunPruned(n: nat, gates: seq<Gate>, h: real)
    ensures Run(n, Prune(gates, n), h) == Run(n, gates, h)
  {
    ApplyPruned(Initial(n), n, gates, h);
  }
}
