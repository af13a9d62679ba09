/**
  The ASCII circuit map (src/components/CircuitDiagram.jsx, `generateASCII`).

  Gates are sliced into layers first-fit: a gate occupies the qubits of its
  span (min..max of its operands for CNOT and CCNOT, its target otherwise)
  and goes into the first layer where all of them are free, or into a new
  layer. Each qubit then gets one line: a label, one four-character cell
  per layer, and the measurement mark.

  A layer is a map from qubit to the position of the gate drawn there in
  the gate list: the source stores the gate object itself in the cell, and
  its position identifies it even when two descriptors are equal. A qubit
  missing from the map is an `undefined` cell.
*/
module Diagram {
  import opened Gates

  type Layer = map<nat, nat>

  /** The lowest qubit g touches: `Math.min` of its operands. */
  function Lo(g: Gate): nat
  {
    match g
    case CNOT(c, t) => Min(c, t)
    case CCNOT(c1, c2, t) => Min(Min(c1, c2), t)
    case _ => g.target
  }

  /** The highest qubit g touches: `Math.max` of its operands. */
  function Hi(g: Gate): nat
  {
    match g
    case CNOT(c, t) => Max(c, t)
    case CCNOT(c1, c2, t) => Max(Max(c1, c2), t)
    case _ => g.target
  }

  /** lo, lo + 1, ..., hi. */
  function Range(lo: nat, hi: nat): (r: seq<nat>)
    requires lo <= hi
    ensures |r| == hi - lo + 1
    ensures forall k :: 0 <= k < |r| ==> r[k] == lo + k
  {
    seq(hi - lo + 1, k => lo + k)
  }

  lemma RangeMembers(lo: nat, hi: nat)
    requires lo <= hi
    ensures forall q :: q in Range(lo, hi) <==> lo <= q <= hi
  {
    forall q | lo <= q <= hi
      ensures q in Range(lo, hi)
    {
      assert Range(lo, hi)[q - lo] == q;
    }
  }

  /** The qubits g occupies in its layer. */
  function Span(g: Gate): (qubits: seq<nat>)
    ensures forall q :: q in qubits <==> Lo(g) <= q <= Hi(g)
    ensures g.target in qubits
    ensures g.CNOT? ==> g.control in qubits
    ensures g.CCNOT? ==> g.control1 in qubits && g.control2 in qubits
    ensures !g.CNOT? && !g.CCNOT? ==> qubits == [g.target]
  {
    RangeMembers(Lo(g), Hi(g));
    Range(Lo(g), Hi(g))
  }

  /** The loop that lists a gate's qubits: start..end for CNOT and CCNOT, the target alone otherwise. */
  method SpanOf(g: Gate) returns (qubits: seq<nat>)
    ensures qubits == Span(g)
  {
    qubits := [];
    if g.CNOT? || g.CCNOT? {
      var start := Lo(g);
      var end := Hi(g);
      var i := start;
      while i <= end
        invariant start <= i <= end + 1
        invariant |qubits| == i - start
        invariant forall k :: 0 <= k < |qubits| ==> qubits[k] == start + k
      {
        qubits := qubits + [i];
        i := i + 1;
      }
      assert qubits == Range(start, end);
    } else {
      qubits := qubits + [g.target];
    }
  }

  /** `isOccupied(layer, qubits)`: some listed qubit already holds a gate in the layer. */
  function IsOccupied(layer: Layer, qubits: seq<nat>): (r: bool)
    ensures r <==> exists k :: 0 <= k < |qubits| && qubits[k] in layer
  {
    if |qubits| == 0 then false
    else if qubits[0] in layer then true
    else
      assert forall k :: 1 <= k < |qubits| ==> qubits[k] == qubits[1..][k - 1];
      IsOccupied(layer, qubits[1..])
  }

  /** The layer with gate idx written into every listed qubit, in order. */
  function Occupy(layer: Layer, qubits: seq<nat>, idx: nat): (r: Layer)
    ensures forall q {:trigger q in r} :: q in r <==> q in layer || q in qubits
    ensures forall q {:trigger r[q]} :: q in r ==> r[q] == if q in qubits then idx else layer[q]
    decreases |qubits|
  {
    if |qubits| == 0 then layer
    else
      assert forall q :: q in qubits <==> q == qubits[0] || q in qubits[1..];
      Occupy(layer[qubits[0] := idx], qubits[1..], idx)
  }

  /** `qubits.forEach(q => layer[q] = gate)`. */
  method Fill(layer: Layer, qubits: seq<nat>, idx: nat) returns (r: Layer)
    ensures r == Occupy(layer, qubits, idx)
  {
    r := layer;
    var k := 0;
    while k < |qubits|
      invariant 0 <= k <= |qubits|
      invariant Occupy(r, qubits[k..], idx) == Occupy(layer, qubits, idx)
    {
      assert qubits[k..][1..] == qubits[k + 1..];
      r := r[qubits[k] := idx];
      k := k + 1;
    }
    assert qubits[k..] == [];
  }

  /** The first layer at or after `from` where every listed qubit is free; |layers| when there is none. */
  function FirstFree(layers: seq<Layer>, qubits: seq<nat>, from: nat): (k: nat)
    requires from <= |layers|
    ensures from <= k <= |layers|
    ensures forall j {:trigger IsOccupied(layers[j], qubits)} :: from <= j < k ==> IsOccupied(layers[j], qubits)
    ensures k < |layers| ==> !IsOccupied(layers[k], qubits)
    decreases |layers| - from
  {
    if from == |layers| then from
    else if !IsOccupied(layers[from], qubits) then from
    else FirstFree(layers, qubits, from + 1)
  }

  /** One gate of the placement: into the first free layer, or into a new layer appended at the end. */
  function Place(layers: seq<Layer>, qubits: seq<nat>, idx: nat): seq<Layer>
  {
    var k := FirstFree(layers, qubits, 0);
    if k < |layers| then layers[k := Occupy(layers[k], qubits, idx)]
    else layers + [Occupy(map[], qubits, idx)]
  }

  /** The layers after placing the first m gates. */
  function Layering(gates: seq<Gate>, m: nat): seq<Layer>
    requires m <= |gates|
  {
    if m == 0 then [] else Place(Layering(gates, m - 1), Span(gates[m - 1]), m - 1)
  }

  /** The layer each of the first m gates went into. */
  function LayerOf(gates: seq<Gate>, m: nat): (where: seq<nat>)
    requires m <= |gates|
    ensures |where| == m
  {
    if m == 0 then []
    else LayerOf(gates, m - 1) + [FirstFree(Layering(gates, m - 1), Span(gates[m - 1]), 0)]
  }

  /**
    The placement loop of `generateASCII`. The inner loop is the search of
    the `for...of` over the layers: it stops at the first layer where the
    gate's qubits are free, and the gate is written there, or into a new
    layer when the search ran off the end.
  */
  method PlaceGates(gates: seq<Gate>) returns (layers: seq<Layer>)
    ensures layers == Layering(gates, |gates|)
  {
    layers := [];
    var m := 0;
    while m < |gates|
      invariant 0 <= m <= |gates|
      invariant layers == Layering(gates, m)
    {
      layers := PlaceGate(layers, gates[m], m);
      LayeringNext(gates, m);
      m := m + 1;
    }
  }

  lemma LayeringNext(gates: seq<Gate>, m: nat)
    requires m < |gates|
    ensures Layering(gates, m + 1) == Place(Layering(gates, m), Span(gates[m]), m)
  {
  }

  /** The body of `gates.forEach`: draw gate idx in the first free layer, or in a new one. */
  method PlaceGate(layers: seq<Layer>, g: Gate, idx: nat) returns (layers': seq<Layer>)
    ensures layers' == Place(layers, Span(g), idx)
  {
    var qubits := SpanOf(g);
    var k := FindLayer(layers, qubits);
    if k < |layers| {
      var layer := Fill(layers[k], qubits, idx);
      layers' := layers[k := layer];
    } else {
      var newLayer := Fill(map[], qubits, idx);
      layers' := layers + [newLayer];
    }
  }

  /** The `for (const layer of layers)` search: the first layer none of the qubits is drawn in. */
  method FindLayer(layers: seq<Layer>, qubits: seq<nat>) returns (k: nat)
    ensures k == FirstFree(layers, qubits, 0)
  {
    k := 0;
    while k < |layers| && IsOccupied(layers[k], qubits)
      invariant 0 <= k <= |layers|
      invariant FirstFree(layers, qubits, k) == FirstFree(layers, qubits, 0)
    {
      k := k + 1;
    }
  }

  // ---------------------------------------------------------------------
  // What the placement guarantees
  // ---------------------------------------------------------------------

  /** Every cell names a gate among the first m. */
  predicate IndicesBelow(layers: seq<Layer>, m: nat)
  {
    forall k, q :: 0 <= k < |layers| && q in layers[k] ==> layers[k][q] < m
  }

  /** Qubit q lies in the span of g. */
  predicate InSpan(g: Gate, q: nat)
  {
    Lo(g) <= q <= Hi(g)
  }

  /** Gate i occupies every qubit of its span g in the layer. */
  ghost predicate Drawn(layer: Layer, g: Gate, i: nat)
  {
    forall q :: InSpan(g, q) ==> q in layer && layer[q] == i
  }

  /** Gate i, for each i < |where|, occupies its whole span in layer where[i]: no later gate overwrote a cell of it. */
  ghost predicate SpansDrawn(gates: seq<Gate>, layers: seq<Layer>, where: seq<nat>)
    requires |where| <= |gates|
  {
    forall i :: 0 <= i < |where| ==> where[i] < |layers| && Drawn(layers[where[i]], gates[i], i)
  }

  /** Every cell of layer k belongs to a placed gate of layer k whose span contains the qubit. */
  ghost predicate Owned(layer: Layer, k: nat, gates: seq<Gate>, where: seq<nat>)
    requires |where| <= |gates|
  {
    forall q :: q in layer ==> layer[q] < |where| && where[layer[q]] == k && InSpan(gates[layer[q]], q)
  }

  /** Every drawn cell belongs to a placed gate of that layer whose span contains the qubit. */
  ghost predicate CellsOwned(gates: seq<Gate>, layers: seq<Layer>, where: seq<nat>)
    requires |where| <= |gates|
  {
    forall k {:trigger Owned(layers[k], k, gates, where)} :: 0 <= k < |layers| ==> Owned(layers[k], k, gates, where)
  }

  /** The first m gates are placed in `layers`, gate i in layer where[i], in at most m layers. */
  ghost predicate Placed(gates: seq<Gate>, m: nat, layers: seq<Layer>, where: seq<nat>)
    requires m <= |gates|
  {
    && |where| == m
    && |layers| <= m
    && SpansDrawn(gates, layers, where)
    && CellsOwned(gates, layers, where)
  }

  /** The spans of g and h share a qubit. */
  predicate Overlap(g: Gate, h: Gate)
  {
    Lo(g) <= Hi(h) && Lo(h) <= Hi(g)
  }

  /** An earlier gate of layer k overlaps gate i. */
  ghost predicate BlockedBy(gates: seq<Gate>, where: seq<nat>, i: nat, k: nat)
    requires i < |where| <= |gates|
  {
    exists j :: 0 <= j < i && where[j] == k && Overlap(gates[i], gates[j])
  }

  /** Gate i skipped each layer before its own only because an earlier gate of that layer overlaps it. */
  ghost predicate FirstFit(gates: seq<Gate>, where: seq<nat>)
    requires |where| <= |gates|
  {
    forall i, k :: 0 <= i < |where| && 0 <= k < where[i] ==> BlockedBy(gates, where, i, k)
  }

  /** The layer chosen for gate m is free on its span, so filling it overwrites nothing. */
  lemma FreeLayer(layers: seq<Layer>, qs: seq<nat>)
    ensures var k := FirstFree(layers, qs, 0);
      k < |layers| ==> forall q :: q in layers[k] ==> q !in qs
  {
  }

  /** Placing gate m keeps every earlier gate's span drawn and draws gate m's span. */
  lemma PlaceKeepsSpans(gates: seq<Gate>, m: nat, layers: seq<Layer>, where: seq<nat>)
    requires m < |gates| && |where| == m && SpansDrawn(gates, layers, where)
    ensures SpansDrawn(gates, Place(layers, Span(gates[m]), m), where + [FirstFree(layers, Span(gates[m]), 0)])
  {
    var where' := where + [FirstFree(layers, Span(gates[m]), 0)];
    forall i | 0 <= i < |where'|
      ensures where'[i] < |Place(layers, Span(gates[m]), m)|
      ensures Drawn(Place(layers, Span(gates[m]), m)[where'[i]], gates[i], i)
    {
      if i < m {
        assert where'[i] == where[i];
        OldSpanKept(gates, m, layers, where[i], i);
      } else {
        NewSpanDrawn(gates, m, layers);
      }
    }
  }

  /** Placing gate m leaves an earlier gate's cells in place: the layer it fills had none of gate m's qubits. */
  lemma OldSpanKept(gates: seq<Gate>, m: nat, layers: seq<Layer>, w: nat, i: nat)
    requires i < m < |gates| && w < |layers| && Drawn(layers[w], gates[i], i)
    ensures w < |Place(layers, Span(gates[m]), m)| && Drawn(Place(layers, Span(gates[m]), m)[w], gates[i], i)
  {
    var qs := Span(gates[m]);
    var k := FirstFree(layers, qs, 0);
    var layers' := Place(layers, qs, m);
    FreeLayer(layers, qs);
    if w == k {
      assert layers'[k] == Occupy(layers[k], qs, m);
      forall q | InSpan(gates[i], q)
        ensures q in layers'[w] && layers'[w][q] == i
      {
        assert q in layers[w];
      }
    } else {
      assert layers'[w] == layers[w];
    }
  }

  /** Gate m covers its whole span in the layer it is placed in. */
  lemma NewSpanDrawn(gates: seq<Gate>, m: nat, layers: seq<Layer>)
    requires m < |gates|
    ensures var k := FirstFree(layers, Span(gates[m]), 0);
      k < |Place(layers, Span(gates[m]), m)| && Drawn(Place(layers, Span(gates[m]), m)[k], gates[m], m)
  {
    var qs := Span(gates[m]);
    var k := FirstFree(layers, qs, 0);
    var base := if k < |layers| then layers[k] else map[];
    assert Place(layers, qs, m)[k] == Occupy(base, qs, m);
  }

  /** After placing gate m every drawn cell still has its owner. */
  lemma PlaceKeepsOwners(gates: seq<Gate>, m: nat, layers: seq<Layer>, where: seq<nat>)
    requires m < |gates| && |where| == m && CellsOwned(gates, layers, where)
    ensures CellsOwned(gates, Place(layers, Span(gates[m]), m), where + [FirstFree(layers, Span(gates[m]), 0)])
  {
    var qs := Span(gates[m]);
    var k := FirstFree(layers, qs, 0);
    var layers' := Place(layers, qs, m);
    var where' := where + [k];
    var base := if k < |layers| then layers[k] else map[];
    assert layers'[k] == Occupy(base, qs, m);
    forall j | 0 <= j < |layers'|
      ensures Owned(layers'[j], j, gates, where')
    {
      if j == k {
        assert base == map[] || Owned(base, j, gates, where);
        forall q | q in layers'[j]
          ensures layers'[j][q] < |where'| && where'[layers'[j][q]] == j && InSpan(gates[layers'[j][q]], q)
        {
          if q !in qs {
            var v := base[q];
            assert where'[v] == where[v];
          }
        }
      } else {
        assert layers'[j] == layers[j] && Owned(layers[j], j, gates, where);
        forall q | q in layers'[j]
          ensures layers'[j][q] < |where'| && where'[layers'[j][q]] == j && InSpan(gates[layers'[j][q]], q)
        {
          var v := layers[j][q];
          assert where'[v] == where[v];
        }
      }
    }
  }

  /** Placing gate m keeps first-fit: every layer before its own is blocked by an earlier overlapping gate. */
  lemma PlaceKeepsFirstFit(gates: seq<Gate>, m: nat, layers: seq<Layer>, where: seq<nat>)
    requires m < |gates| && Placed(gates, m, layers, where) && FirstFit(gates, where)
    ensures FirstFit(gates, where + [FirstFree(layers, Span(gates[m]), 0)])
  {
    var where' := where + [FirstFree(layers, Span(gates[m]), 0)];
    forall i, k | 0 <= i < |where'| && 0 <= k < where'[i]
      ensures BlockedBy(gates, where', i, k)
    {
      if i < m {
        BlockedStays(gates, where, FirstFree(layers, Span(gates[m]), 0), i, k);
      } else {
        NewGateBlocked(gates, m, layers, where, k);
      }
    }
  }

  /** A gate blocked from layer k stays blocked when a later gate is placed. */
  lemma BlockedStays(gates: seq<Gate>, where: seq<nat>, x: nat, i: nat, k: nat)
    requires i < |where| < |gates| && BlockedBy(gates, where, i, k)
    ensures BlockedBy(gates, where + [x], i, k)
  {
    var j :| 0 <= j < i && where[j] == k && Overlap(gates[i], gates[j]);
    assert (where + [x])[j] == k;
  }

  /** Every layer before the one the new gate lands in holds an earlier gate overlapping it. */
  lemma NewGateBlocked(gates: seq<Gate>, m: nat, layers: seq<Layer>, where: seq<nat>, k: nat)
    requires m < |gates| && |where| == m && CellsOwned(gates, layers, where)
    requires k < FirstFree(layers, Span(gates[m]), 0)
    ensures BlockedBy(gates, where + [FirstFree(layers, Span(gates[m]), 0)], m, k)
  {
    var qs := Span(gates[m]);
    assert IsOccupied(layers[k], qs);
    var x :| 0 <= x < |qs| && qs[x] in layers[k];
    var q := qs[x];
    assert Owned(layers[k], k, gates, where);
    var j := layers[k][q];
    assert InSpan(gates[j], q) && InSpan(gates[m], q);
    assert (where + [FirstFree(layers, qs, 0)])[j] == k && Overlap(gates[m], gates[j]);
  }

  /** The placement facts and first-fit hold for the layering of the first k gates, for every k up to m. */
  ghost predicate LayeredUpTo(gates: seq<Gate>, m: nat)
    requires m <= |gates|
  {
    && Placed(gates, m, Layering(gates, m), LayerOf(gates, m))
    && FirstFit(gates, LayerOf(gates, m))
    && (m > 0 ==> LayeredUpTo(gates, m - 1))
  }

  lemma {:induction false} LayeredAll(gates: seq<Gate>, m: nat)
    requires m <= |gates|
    ensures LayeredUpTo(gates, m)
  {
    if m > 0 {
      LayeredAll(gates, m - 1);
      LayeringStep(gates, m - 1);
    }
  }

  /** The layering of the first m gates satisfies the placement facts and first-fit. */
  lemma LayeringCorrect(gates: seq<Gate>, m: nat)
    requires m <= |gates|
    ensures Placed(gates, m, Layering(gates, m), LayerOf(gates, m))
    ensures FirstFit(gates, LayerOf(gates, m))
  {
    LayeredAll(gates, m);
  }

  /** One step of the induction: the facts for the first m gates give those for the first m + 1. */
  lemma LayeringStep(gates: seq<Gate>, m: nat)
    requires m < |gates|
    requires LayeredUpTo(gates, m)
    ensures LayeredUpTo(gates, m + 1)
  {
    var layers, where := Layering(gates, m), LayerOf(gates, m);
    PlaceKeepsPlacement(gates, m, layers, where);
    assert Layering(gates, m + 1) == Place(layers, Span(gates[m]), m);
    assert LayerOf(gates, m + 1) == where + [FirstFree(layers, Span(gates[m]), 0)];
  }

  /** Placing gate m by first fit keeps the placement facts and first-fit for the first m + 1 gates. */
  lemma PlaceKeepsPlacement(gates: seq<Gate>, m: nat, layers: seq<Layer>, where: seq<nat>)
    requires m < |gates| && Placed(gates, m, layers, where) && FirstFit(gates, where)
    ensures Placed(gates, m + 1, Place(layers, Span(gates[m]), m), where + [FirstFree(layers, Span(gates[m]), 0)])
    ensures FirstFit(gates, where + [FirstFree(layers, Span(gates[m]), 0)])
  {
    var qs := Span(gates[m]);
    var k := FirstFree(layers, qs, 0);
    var layers', where' := Place(layers, qs, m), where + [k];
    assert |layers'| <= m + 1;
    PlaceKeepsSpans(gates, m, layers, where);
    PlaceKeepsOwners(gates, m, layers, where);
    PlaceKeepsFirstFit(gates, m, layers, where);
  }

  /** Overlapping spans share a qubit. */
  lemma SharedQubit(g: Gate, h: Gate) returns (q: nat)
    requires Overlap(g, h)
    ensures InSpan(g, q) && InSpan(h, q)
  {
    q := Max(Lo(g), Lo(h));
  }

  /** Two gates in one layer have disjoint spans. */
  lemma SameLayerDisjoint(gates: seq<Gate>, i: nat, j: nat)
    requires i < j < |gates|
    requires LayerOf(gates, |gates|)[i] == LayerOf(gates, |gates|)[j]
    ensures !Overlap(gates[i], gates[j])
  {
    if Overlap(gates[i], gates[j]) {
      var q := SharedQubit(gates[i], gates[j]);
      GatePlaced(gates, i, q);
      GatePlaced(gates, j, q);
    }
  }

  /** There are never more layers than gates, and every cell names a gate. */
  lemma LayeringSize(gates: seq<Gate>)
    ensures |Layering(gates, |gates|)| <= |gates|
    ensures IndicesBelow(Layering(gates, |gates|), |gates|)
  {
    var layers := Layering(gates, |gates|);
    var where := LayerOf(gates, |gates|);
    LayeringCorrect(gates, |gates|);
    forall k, q | 0 <= k < |layers| && q in layers[k]
      ensures layers[k][q] < |gates|
    {
      assert Owned(layers[k], k, gates, where);
    }
  }

  // ---------------------------------------------------------------------
  // Rendering
  // ---------------------------------------------------------------------

  /** The decimal digit character for d. */
  function Digit(d: nat): (c: char)
    requires d < 10
    ensures '0' <= c <= '9'
  {
    (d + '0' as int) as char
  }

  /** `i.toString()`: the decimal digits of i. */
  function NatToString(i: nat): (s: string)
    ensures |s| >= 1
    ensures i < 10 ==> |s| == 1
    ensures 10 <= i < 100 ==> |s| == 2
    ensures forall k :: 0 <= k < |s| ==> '0' <= s[k] <= '9'
  {
    if i < 10 then [Digit(i)] else NatToString(i / 10) + [Digit(i % 10)]
  }

  /** The value of a string of decimal digits. */
  function DigitsValue(s: string): nat
    requires forall k :: 0 <= k < |s| ==> '0' <= s[k] <= '9'
  {
    if |s| == 0 then 0 else 10 * DigitsValue(s[..|s| - 1]) + (s[|s| - 1] as int - '0' as int)
  }

  /** Reading back the digits gives the number: distinct qubits get distinct labels. */
  lemma {:induction false} NatToStringValue(i: nat)
    ensures DigitsValue(NatToString(i)) == i
  {
    var s := NatToString(i);
    if i >= 10 {
      NatToStringValue(i / 10);
      assert s[..|s| - 1] == NatToString(i / 10);
    }
  }

  /** `s.padEnd(len, c)`: s followed by copies of c up to length len; s itself when already that long. */
  function PadEnd(s: string, len: nat, c: char): (r: string)
    ensures |r| == if |s| >= len then |s| else len
    ensures r[..|s|] == s
    ensures forall k :: |s| <= k < |r| ==> r[k] == c
  {
    if |s| >= len then s else s + seq(len - |s|, _ => c)
  }

  /** The width the qubit number is padded to. */
  function LabelPad(numQubits: int): nat
  {
    if numQubits > 9 then 2 else 1
  }

  /** `q<i padded>: -`, the start of line i. */
  function Label(i: nat, numQubits: int): string
  {
    "q" + PadEnd(NatToString(i), LabelPad(numQubits), ' ') + ": -"
  }

  /** The operand fields `control`, `control1`, `control2` that g carries and that equal i. */
  predicate IsControl(g: Gate, i: nat)
  {
    match g
    case CNOT(c, _) => c == i
    case CCNOT(c1, c2, _) => c1 == i || c2 == i
    case _ => false
  }

  /** The four-character cell of qubit i in a layer (longer for a single-qubit type name of two or more characters). */
  function CellText(gates: seq<Gate>, layer: Layer, i: nat): (cell: string)
    requires forall q :: q in layer ==> layer[q] < |gates|
    ensures i !in layer ==> cell == "----"
    ensures i in layer && (gates[layer[i]].CNOT? || gates[layer[i]].CCNOT?) ==>
      cell == (if gates[layer[i]].target == i then "[C]-" else if IsControl(gates[layer[i]], i) then "-o--" else "-|--")
    ensures i in layer && !gates[layer[i]].CNOT? && !gates[layer[i]].CCNOT? ==>
      var text := "[" + TypeName(gates[layer[i]]) + "]-";
      |cell| == Max(|text|, 4) && cell[..|text|] == text && forall k :: |text| <= k < |cell| ==> cell[k] == '-'
  {
    if i !in layer then "----"
    else
      var g := gates[layer[i]];
      if g.CNOT? || g.CCNOT? then
        if g.target == i then "[C]-"
        else if IsControl(g, i) then "-o--"
        else "-|--"
      else
        PadEnd("[" + TypeName(g) + "]-", 4, '-')
  }

  /** The cells of qubit i across the layers, in layer order. */
  function Row(gates: seq<Gate>, layers: seq<Layer>, i: nat): string
    requires IndicesBelow(layers, |gates|)
  {
    if |layers| == 0 then ""
    else Row(gates, layers[..|layers| - 1], i) + CellText(gates, layers[|layers| - 1], i)
  }

  /** Line i of the map: label, cells, measurement mark. */
  function Line(gates: seq<Gate>, layers: seq<Layer>, i: nat, numQubits: int): string
    requires IndicesBelow(layers, |gates|)
  {
    Label(i, numQubits) + Row(gates, layers, i) + "[M]"
  }

  /** `lines.join('\n')`. */
  function Join(lines: seq<string>): string
  {
    if |lines| == 0 then ""
    else if |lines| == 1 then lines[0]
    else lines[0] + "\n" + Join(lines[1..])
  }

  /** The string `generateASCII` returns. */
  function Ascii(gates: seq<Gate>, numQubits: int): (r: string)
    ensures numQubits <= 0 ==> r == ""
  {
    if numQubits <= 0 then ""
    else
      var layers := Layering(gates, |gates|);
      LayeringSize(gates);
      Join(seq(numQubits, i requires 0 <= i < numQubits => Line(gates, layers, i, numQubits)))
  }

  /** A prefix of the layers names only gates the whole does. */
  lemma PrefixIndicesBelow(layers: seq<Layer>, m: nat, k: nat)
    requires IndicesBelow(layers, m) && k <= |layers|
    ensures IndicesBelow(layers[..k], m)
  {
    forall j, q | 0 <= j < k && q in layers[..k][j]
      ensures layers[..k][j][q] < m
    {
      assert layers[..k][j] == layers[j];
    }
  }

  /** The row over one more layer is the row so far followed by that layer's cell. */
  lemma RowStep(gates: seq<Gate>, layers: seq<Layer>, k: nat, i: nat)
    requires IndicesBelow(layers, |gates|) && k < |layers|
    ensures IndicesBelow(layers[..k], |gates|) && IndicesBelow(layers[..k + 1], |gates|)
    ensures Row(gates, layers[..k + 1], i) == Row(gates, layers[..k], i) + CellText(gates, layers[k], i)
  {
    PrefixIndicesBelow(layers, |gates|, k);
    PrefixIndicesBelow(layers, |gates|, k + 1);
    assert layers[..k + 1][..k] == layers[..k];
  }

  /** The inner loop: add layer's cell to every line. */
  method AppendCells(lines: array<string>, gates: seq<Gate>, layer: Layer)
    requires forall q :: q in layer ==> layer[q] < |gates|
    modifies lines
    ensures forall j :: 0 <= j < lines.Length ==> lines[j] == old(lines[j]) + CellText(gates, layer, j)
  {
    var i := 0;
    while i < lines.Length
      invariant 0 <= i <= lines.Length
      invariant forall j :: 0 <= j < i ==> lines[j] == old(lines[j]) + CellText(gates, layer, j)
      invariant forall j :: i <= j < lines.Length ==> lines[j] == old(lines[j])
    {
      lines[i] := lines[i] + CellText(gates, layer, i);
      i := i + 1;
    }
  }

  /** The last loop: close every line with the measurement mark. */
  method AppendMarks(lines: array<string>)
    modifies lines
    ensures forall j :: 0 <= j < lines.Length ==> lines[j] == old(lines[j]) + "[M]"
  {
    var i := 0;
    while i < lines.Length
      invariant 0 <= i <= lines.Length
      invariant forall j :: 0 <= j < i ==> lines[j] == old(lines[j]) + "[M]"
      invariant forall j :: i <= j < lines.Length ==> lines[j] == old(lines[j])
    {
      lines[i] := lines[i] + "[M]";
      i := i + 1;
    }
  }

  /** The line-building loops: labels, then one cell per layer and qubit, then the measurement marks. */
  method RenderLines(gates: seq<Gate>, layers: seq<Layer>, numQubits: nat) returns (result: seq<string>)
    requires IndicesBelow(layers, |gates|)
    ensures |result| == numQubits
    ensures forall i :: 0 <= i < numQubits ==> result[i] == Line(gates, layers, i, numQubits)
  {
    var lines := new string[numQubits](i => Label(i, numQubits));
    var k := 0;
    PrefixIndicesBelow(layers, |gates|, 0);
    while k < |layers|
      invariant 0 <= k <= |layers|
      invariant IndicesBelow(layers[..k], |gates|)
      invariant forall i :: 0 <= i < numQubits ==> lines[i] == Label(i, numQubits) + Row(gates, layers[..k], i)
    {
      AppendCells(lines, gates, layers[k]);
      forall j | 0 <= j < numQubits
        ensures lines[j] == Label(j, numQubits) + Row(gates, layers[..k + 1], j)
      {
        RowStep(gates, layers, k, j);
        ConcatAssoc(Label(j, numQubits), Row(gates, layers[..k], j), CellText(gates, layers[k], j));
      }
      PrefixIndicesBelow(layers, |gates|, k + 1);
      k := k + 1;
    }
    assert layers[..|layers|] == layers;
    AppendMarks(lines);
    result := lines[..];
  }

  lemma ConcatAssoc(a: string, b: string, c: string)
    ensures (a + b) + c == a + (b + c)
  {
  }

  /** `generateASCII()`. */
  method GenerateAscii(gates: seq<Gate>, numQubits: int) returns (s: string)
    ensures s == Ascii(gates, numQubits)
  {
    if numQubits <= 0 {
      return "";
    }
    var layers := PlaceGates(gates);
    LayeringSize(gates);
    var lines := RenderLines(gates, layers, numQubits);
    assert lines == seq(numQubits, i requires 0 <= i < numQubits => Line(gates, layers, i, numQubits));
    s := Join(lines);
  }

  // ---------------------------------------------------------------------
  // Properties of the drawing
  // ---------------------------------------------------------------------

  /** Joining n lines that hold no line break yields a text with exactly n - 1 line breaks. */
  lemma {:induction false} JoinNewlines(lines: seq<string>)
    requires |lines| >= 1
    requires forall k :: 0 <= k < |lines| ==> '\n' !in lines[k]
    ensures multiset(Join(lines))['\n'] == |lines| - 1
  {
    if |lines| > 1 {
      JoinNewlines(lines[1..]);
      assert multiset(lines[0])['\n'] == 0;
      assert Join(lines) == lines[0] + "\n" + Join(lines[1..]);
    } else {
      assert multiset(lines[0])['\n'] == 0;
    }
  }

  /** Every gate draws a four-character cell: H, X, S, T, CNOT, CCNOT and one-letter custom names. */
  predicate NarrowNames(gates: seq<Gate>)
  {
    forall k :: 0 <= k < |gates| ==> gates[k].CNOT? || gates[k].CCNOT? || |TypeName(gates[k])| <= 1
  }

  lemma CellWidth(gates: seq<Gate>, layer: Layer, i: nat)
    requires forall q :: q in layer ==> layer[q] < |gates|
    requires NarrowNames(gates)
    ensures |CellText(gates, layer, i)| == 4
  {
    if i in layer {
      var k := layer[i];
      assert gates[k].CNOT? || gates[k].CCNOT? || |TypeName(gates[k])| <= 1;
    }
  }

  lemma SliceLeft(a: string, b: string, lo: nat, hi: nat)
    requires lo <= hi <= |a|
    ensures (a + b)[lo..hi] == a[lo..hi]
  {
  }

  lemma SliceRight(a: string, b: string)
    ensures (a + b)[|a|..] == b
  {
  }

  lemma SliceInner(a: string, b: string, lo: nat, hi: nat)
    requires lo <= hi <= |b|
    ensures (a + b)[|a| + lo .. |a| + hi] == b[lo..hi]
  {
    SliceRight(a, b);
    assert (a + b)[|a| + lo .. |a| + hi] == (a + b)[|a|..][lo..hi];
  }

  lemma {:induction false} RowWidth(gates: seq<Gate>, layers: seq<Layer>, i: nat)
    requires IndicesBelow(layers, |gates|) && NarrowNames(gates)
    ensures |Row(gates, layers, i)| == 4 * |layers|
    decreases |layers|
  {
    if |layers| > 0 {
      var last := |layers| - 1;
      PrefixIndicesBelow(layers, |gates|, last);
      CellWidth(gates, layers[last], i);
      RowWidth(gates, layers[..last], i);
    }
  }

  /** With narrow names the cell of layer k on a line occupies columns 4k to 4k + 3 of its row. */
  lemma {:induction false} RowCell(gates: seq<Gate>, layers: seq<Layer>, i: nat, k: nat)
    requires IndicesBelow(layers, |gates|) && NarrowNames(gates)
    requires k < |layers|
    ensures |Row(gates, layers, i)| == 4 * |layers|
    ensures Row(gates, layers, i)[4 * k .. 4 * k + 4] == CellText(gates, layers[k], i)
    decreases |layers|
  {
    RowWidth(gates, layers, i);
    var last := |layers| - 1;
    var init := layers[..last];
    PrefixIndicesBelow(layers, |gates|, last);
    RowWidth(gates, init, i);
    var front := Row(gates, init, i);
    var cell := CellText(gates, layers[last], i);
    assert Row(gates, layers, i) == front + cell;
    if k < last {
      RowCell(gates, init, i, k);
      assert init[k] == layers[k];
      SliceLeft(front, cell, 4 * k, 4 * k + 4);
    } else {
      assert k == last && |front| == 4 * k;
      SliceRight(front, cell);
    }
  }

  /** `q<i>: -` is as wide on every line while qubit numbers fit in the padding (at most 100 qubits). */
  lemma LabelWidth(i: nat, numQubits: int)
    requires i < numQubits <= 100
    ensures |Label(i, numQubits)| == LabelPad(numQubits) + 4
  {
  }

  /** With narrow names and at most 100 qubits, all lines of the drawing have the same length. */
  lemma LinesAligned(gates: seq<Gate>, numQubits: int, i: nat, j: nat)
    requires NarrowNames(gates)
    requires i < numQubits && j < numQubits && numQubits <= 100
    ensures var layers := Layering(gates, |gates|);
      IndicesBelow(layers, |gates|) &&
      |Line(gates, layers, i, numQubits)| == |Line(gates, layers, j, numQubits)| == LabelPad(numQubits) + 4 * |layers| + 7
  {
    LayeringSize(gates);
    var layers := Layering(gates, |gates|);
    LabelWidth(i, numQubits);
    LabelWidth(j, numQubits);
    RowWidth(gates, layers, i);
    RowWidth(gates, layers, j);
  }

  /** Gate j occupies every qubit of its span in the layer it was placed in. */
  lemma GatePlaced(gates: seq<Gate>, j: nat, q: nat)
    requires j < |gates| && InSpan(gates[j], q)
    ensures var layers := Layering(gates, |gates|); var k := LayerOf(gates, |gates|)[j];
      && IndicesBelow(layers, |gates|)
      && k < |layers| && q in layers[k] && layers[k][q] == j
  {
    LayeringSize(gates);
    LayeringCorrect(gates, |gates|);
    var layers := Layering(gates, |gates|);
    var where := LayerOf(gates, |gates|);
    assert where[j] < |layers| && Drawn(layers[where[j]], gates[j], j);
  }

  /**
    What the cell of gate g shows on qubit q: `[C]-` on the target of a CNOT
    or CCNOT, `-o--` on its controls, `-|--` in between, and `[type]-`
    followed by padding on the target of any other gate.
  */
  predicate CellShows(g: Gate, q: nat, cell: string)
  {
    && ((g.CNOT? || g.CCNOT?) ==>
        cell == (if q == g.target then "[C]-" else if IsControl(g, q) then "-o--" else "-|--"))
    && (!g.CNOT? && !g.CCNOT? ==>
        q == g.target && |TypeName(g)| + 3 <= |cell| && cell[..|TypeName(g)| + 3] == "[" + TypeName(g) + "]-")
  }

  /** Gate j is drawn on every qubit of its span, in the layer it was placed in, and its cell there shows it. */
  lemma GateCell(gates: seq<Gate>, j: nat, q: nat)
    requires j < |gates| && InSpan(gates[j], q)
    ensures var layers := Layering(gates, |gates|); var k := LayerOf(gates, |gates|)[j];
      && IndicesBelow(layers, |gates|)
      && k < |layers| && q in layers[k] && layers[k][q] == j
      && CellShows(gates[j], q, CellText(gates, layers[k], q))
  {
    GatePlaced(gates, j, q);
  }

  /** With narrow names, columns 4k to 4k + 3 after the label of line q hold the cell of layer k. */
  lemma LineCell(gates: seq<Gate>, layers: seq<Layer>, q: nat, numQubits: int, k: nat)
    requires IndicesBelow(layers, |gates|) && NarrowNames(gates) && k < |layers|
    ensures var start := |Label(q, numQubits)| + 4 * k;
      && start + 4 <= |Line(gates, layers, q, numQubits)|
      && Line(gates, layers, q, numQubits)[start .. start + 4] == CellText(gates, layers[k], q)
  {
    RowCell(gates, layers, q, k);
    FramedSlice(Line(gates, layers, q, numQubits), Label(q, numQubits), Row(gates, layers, q), "[M]",
      4 * k, 4 * k + 4, CellText(gates, layers[k], q));
  }

  /** A slice of the middle part of `prefix + middle + suffix`, shifted by the prefix. */
  lemma FramedSlice(line: string, prefix: string, middle: string, suffix: string, i: nat, j: nat, part: string)
    requires line == prefix + middle + suffix
    requires i <= j <= |middle| && middle[i..j] == part
    ensures |prefix| + j <= |line|
    ensures line[|prefix| + i .. |prefix| + j] == part
  {
    SliceLeft(prefix + middle, suffix, |prefix| + i, |prefix| + j);
    SliceInner(prefix, middle, i, j);
  }

  /** Putting the two together: on line q, columns 4k to 4k + 3 after the label show gate j's cell. */
  lemma GateShown(gates: seq<Gate>, numQubits: int, j: nat, q: nat)
    requires NarrowNames(gates)
    requires j < |gates| && InSpan(gates[j], q)
    ensures var layers := Layering(gates, |gates|); var k := LayerOf(gates, |gates|)[j];
      && IndicesBelow(layers, |gates|)
      && k < |layers| && q in layers[k] && layers[k][q] == j
      && ShownAt(gates, layers, q, numQubits, k, j)
  {
    GateCell(gates, j, q);
    ShownOnLine(gates, Layering(gates, |gates|), q, numQubits, LayerOf(gates, |gates|)[j], j);
  }

  /** Columns 4k to 4k + 3 after the label of line q hold the cell of layer k, and that cell shows gate j. */
  predicate ShownAt(gates: seq<Gate>, layers: seq<Layer>, q: nat, numQubits: int, k: nat, j: nat)
    requires IndicesBelow(layers, |gates|) && k < |layers| && j < |gates|
  {
    var start := |Label(q, numQubits)| + 4 * k;
    && start + 4 <= |Line(gates, layers, q, numQubits)|
    && var shown := Line(gates, layers, q, numQubits)[start .. start + 4];
    && shown == CellText(gates, layers[k], q)
    && CellShows(gates[j], q, shown)
  }

  /** A cell that shows gate j shows it on the line too. */
  lemma ShownOnLine(gates: seq<Gate>, layers: seq<Layer>, q: nat, numQubits: int, k: nat, j: nat)
    requires IndicesBelow(layers, |gates|) && NarrowNames(gates) && k < |layers| && j < |gates|
    requires CellShows(gates[j], q, CellText(gates, layers[k], q))
    ensures ShownAt(gates, layers, q, numQubits, k, j)
  {
    LineCell(gates, layers, q, numQubits, k);
  }

  /** No type name holds a line break. */
  predicate SingleLineNames(gates: seq<Gate>)
  {
    forall k :: 0 <= k < |gates| ==> '\n' !in TypeName(gates[k])
  }

  lemma CellNoBreak(gates: seq<Gate>, layer: Layer, i: nat)
    requires forall q :: q in layer ==> layer[q] < |gates|
    requires SingleLineNames(gates)
    ensures '\n' !in CellText(gates, layer, i)
  {
    if i in layer && !gates[layer[i]].CNOT? && !gates[layer[i]].CCNOT? {
      var name := TypeName(gates[layer[i]]);
      assert '\n' !in name;
      var text := "[" + name + "]-";
      assert '\n' !in text;
      assert CellText(gates, layer, i) == PadEnd(text, 4, '-');
    }
  }

  lemma NoBreakConcat(a: string, b: string)
    requires '\n' !in a && '\n' !in b
    ensures '\n' !in a + b
  {
  }

  /** The cells of the first k layers hold no line break. */
  lemma {:induction false} RowPrefixNoBreak(gates: seq<Gate>, layers: seq<Layer>, i: nat, k: nat)
    requires IndicesBelow(layers, |gates|) && SingleLineNames(gates) && k <= |layers|
    ensures IndicesBelow(layers[..k], |gates|) && '\n' !in Row(gates, layers[..k], i)
  {
    if k == 0 {
      PrefixIndicesBelow(layers, |gates|, 0);
    } else {
      RowPrefixNoBreak(gates, layers, i, k - 1);
      RowExtendNoBreak(gates, layers, i, k - 1);
    }
  }

  /** Adding layer k's cell to a row without line breaks keeps it free of them. */
  lemma RowExtendNoBreak(gates: seq<Gate>, layers: seq<Layer>, i: nat, k: nat)
    requires IndicesBelow(layers, |gates|) && SingleLineNames(gates) && k < |layers|
    requires IndicesBelow(layers[..k], |gates|) && '\n' !in Row(gates, layers[..k], i)
    ensures IndicesBelow(layers[..k + 1], |gates|) && '\n' !in Row(gates, layers[..k + 1], i)
  {
    RowStep(gates, layers, k, i);
    CellNoBreak(gates, layers[k], i);
    NoBreakConcat(Row(gates, layers[..k], i), CellText(gates, layers[k], i));
  }

  lemma RowNoBreak(gates: seq<Gate>, layers: seq<Layer>, i: nat)
    requires IndicesBelow(layers, |gates|) && SingleLineNames(gates)
    ensures '\n' !in Row(gates, layers, i)
  {
    RowPrefixNoBreak(gates, layers, i, |layers|);
    assert layers[..|layers|] == layers;
  }

  lemma LineNoBreak(gates: seq<Gate>, layers: seq<Layer>, i: nat, numQubits: int)
    requires IndicesBelow(layers, |gates|) && SingleLineNames(gates)
    ensures '\n' !in Line(gates, layers, i, numQubits)
  {
    RowNoBreak(gates, layers, i);
    var digits := NatToString(i);
    assert '\n' !in digits;
    var prefix := Label(i, numQubits);
    assert '\n' !in prefix;
    NoBreakConcat(prefix, Row(gates, layers, i));
    NoBreakConcat(prefix + Row(gates, layers, i), "[M]");
  }

  /** When no type name holds a line break, the drawing of n qubits has n lines: exactly n - 1 line breaks. */
  lemma AsciiLineCount(gates: seq<Gate>, numQubits: int)
    requires numQubits >= 1 && SingleLineNames(gates)
    ensures multiset(Ascii(gates, numQubits))['\n'] == numQubits - 1
  {
    LayeringSize(gates);
    var layers := Layering(gates, |gates|);
    var lines := seq(numQubits, i requires 0 <= i < numQubits => Line(gates, layers, i, numQubits));
    forall k | 0 <= k < |lines|
      ensures '\n' !in lines[k]
    {
      LineNoBreak(gates, layers, k, numQubits);
    }
    JoinNewlines(lines);
  }
}
