/**
  Editing the gate list (src/components/ControlPanel.jsx): clamping the
  numbers typed into the panel, appending the selected gate and removing
  the gate at an index.

  `parseInt` itself is not modelled: its result reaches `SafeInt` as
  `Some(n)` for an integer and `None` for NaN.
*/
module Editing {
  import opened Gates
  import opened Pruning

  datatype Option<T> = None | Some(value: T)

  /** `safeInt(val, max)`: 0 for input that is not a number, else the value clamped to [0, max]. */
  function SafeInt(val: Option<int>, max: int): (r: int)
    ensures val.None? ==> r == 0
    ensures max >= 0 ==> 0 <= r <= max
    ensures max < 0 ==> r == 0
    ensures val.Some? && 0 <= val.value <= max ==> r == val.value
    ensures val.Some? && max >= 0 && val.value > max ==> r == max
    ensures val.Some? && val.value < 0 ==> r == 0
  {
    match val
    case None => 0
    case Some(n) => Max(0, Min(max, n))
  }

  /** Clamping a clamped value changes nothing. */
  lemma SafeIntIdempotent(val: Option<int>, max: int)
    ensures SafeInt(Some(SafeInt(val, max)), max) == SafeInt(val, max)
  {
  }

  /**
    `addGate()`: the selected kind with target, control and control2 each
    capped at numQubits - 1, appended after the existing gates. CNOT takes
    (control, target), CCNOT (control, control2, target), any other kind
    the target alone.
  */
  function AddGate(gates: seq<Gate>, selected: string, target: int, control: int, control2: int, numQubits: int): (r: seq<Gate>)
    requires numQubits >= 1 && target >= 0 && control >= 0 && control2 >= 0
    ensures |r| == |gates| + 1 && r[..|gates|] == gates
    ensures var g := r[|gates|];
      && TypeName(g) == selected && WellKinded(g)
      && (g.CNOT? <==> selected == "CNOT")
      && (g.CCNOT? <==> selected == "CCNOT")
      && OperandsBelow(g, numQubits)
      && g.target <= target && (target < numQubits ==> g.target == target)
      && (g.CNOT? ==> g.control <= control && (control < numQubits ==> g.control == control))
      && (g.CCNOT? ==> g.control1 <= control && (control < numQubits ==> g.control1 == control))
      && (g.CCNOT? ==> g.control2 <= control2 && (control2 < numQubits ==> g.control2 == control2))
      && (target >= numQubits ==> g.target == numQubits - 1)
      && (g.CNOT? && control >= numQubits ==> g.control == numQubits - 1)
      && (g.CCNOT? && control >= numQubits ==> g.control1 == numQubits - 1)
      && (g.CCNOT? && control2 >= numQubits ==> g.control2 == numQubits - 1)
  {
    var t := Min(target, numQubits - 1);
    var c := Min(control, numQubits - 1);
    var c2 := Min(control2, numQubits - 1);
    var g :=
      if selected == "CNOT" then CNOT(c, t)
      else if selected == "CCNOT" then CCNOT(c, c2, t)
      else SingleQubit(selected, t);
    gates + [g]
  }

  /** `removeGate(index)`: every gate whose position is not index, in order. */
  function RemoveGate(gates: seq<Gate>, index: int): (r: seq<Gate>)
    ensures 0 <= index < |gates| ==> |r| == |gates| - 1 && r == gates[..index] + gates[index + 1..]
    ensures !(0 <= index < |gates|) ==> r == gates
  {
    if |gates| == 0 then []
    else (if index == 0 then [] else [gates[0]]) + RemoveGate(gates[1..], index - 1)
  }

  /** Removing the gate just added gives the list back. */
  lemma RemoveUndoesAdd(gates: seq<Gate>, selected: string, target: int, control: int, control2: int, numQubits: int)
    requires numQubits >= 1 && target >= 0 && control >= 0 && control2 >= 0
    ensures RemoveGate(AddGate(gates, selected, target, control, control2, numQubits), |gates|) == gates
  {
  }

  /** A gate list that fits in numQubits still fits after adding a gate, so the page's pruning keeps all of it. */
  lemma AddGateKeepsFit(gates: seq<Gate>, selected: string, target: int, control: int, control2: int, numQubits: int)
    requires numQubits >= 1 && target >= 0 && control >= 0 && control2 >= 0
    requires Prune(gates, numQubits) == gates
    ensures Prune(AddGate(gates, selected, target, control, control2, numQubits), numQubits)
      == AddGate(gates, selected, target, control, control2, numQubits)
  {
    var r := AddGate(gates, selected, target, control, control2, numQubits);
    PruneLength(gates, numQubits);
    forall k | 0 <= k < |r|
      ensures Keep(r[k], numQubits)
    {
      if k < |gates| {
        assert r[k] == gates[k];
      }
    }
    PruneLength(r, numQubits);
  }
}
