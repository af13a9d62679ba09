# quantum_interference — a Dafny model of the circuit core

quantum_interference is a browser toy that builds a quantum circuit of up to
ten qubits. The user stacks H, X, S, T, CNOT and CCNOT gates in a control
panel. A dense state-vector simulator runs the circuit, and a side panel
draws it as an ASCII circuit map. This project models that core and proves
properties of it:

- `complex.dfy` (module `Complex`): complex amplitudes `{re, im}` with
  `create`, `add`, `multiply`, `conjugate`, `magnitudeSq`, `scale` and the
  constants `ZERO`, `ONE`, `I`.
- `bits.dfy` (module `Bits`): the index arithmetic the engine does with
  `1 << t`, `i & step` and `i | step`. Bit `b` of index `i` is qubit `b`, and
  `FlipBit(i, b)` is the partner index `i XOR 2^b`.
- `gates.dfy` (module `Gates`): the gate descriptors
  `{type, target, control, control1, control2}`. Each type the engine knows
  has its own constructor. `Unknown` keeps the type string of a descriptor
  of any other kind.
- `engine.dfy` (module `Engine`): the class `StateVector` holds its
  amplitudes in an `array`. The module also has `applyGate`, the four fixed
  single-qubit gates, `applyCNOT`, `applyCCNOT` and `runCircuit`. Each
  method is proved against a function on sequences: `GateSeq`, `SwapSeq`,
  `Step`, `Apply` and `Run`.
- `engine_properties.dfy` (module `EngineProperties`): what the gates do.
  This covers X swaps, S and T phases, H, X, CNOT and CCNOT undoing
  themselves, out-of-range gates doing nothing, and unknown types being
  skipped. It also proves the results of small circuits worked out by hand.
- `norm.dfy` (module `Probability`): every gate keeps the sum of squared
  magnitudes, so `runCircuit` always ends with total probability 1.
- `diagram.dfy` (module `Diagram`): `generateASCII` and `isOccupied` of the
  circuit map. Gates are placed into layers by first fit. The module then
  renders labels, four-character cells and measurement marks, and joins the
  lines. Proved:
  - every gate is drawn over its whole span in its own layer;
  - no two gates of a layer overlap;
  - each gate skipped every earlier layer only because an earlier gate of
    that layer overlaps it;
  - the cell drawn for each qubit of a gate;
  - all lines have the same width;
  - the text has one line per qubit.
- `pruning.dfy` (module `Pruning`): the page's clean-up when the qubit
  count drops. It keeps the gates whose operands all fit and replaces the
  list only when something was removed.
- `editing.dfy` (module `Editing`): the control panel's `safeInt`, `addGate`
  and `removeGate`.

Numbers are exact reals and unbounded integers. The two irrational matrix
entries, 1/sqrt(2) in H and sqrt(2)/2 in T, are the same real number. The
model takes it as a parameter `h`. Lemmas that need its value require
`2 h^2 == 1`.

## Model

| member | source | states |
|---|---|---|
| Complex.Create | src/lib/quantum/complex.js:6 | `create(re, im)` has exactly the given real and imaginary parts, each defaulting to 0 when omitted |
| Complex.CreateDefaults | src/lib/quantum/complex.js:6 | `create()` is ZERO, and `create(re)` is the real number re + 0i |
| Complex.CreateRoundTrip | src/lib/quantum/complex.js:6 | rebuilding a value from its own two components gives the same value back |
| Complex.Add | src/lib/quantum/complex.js:8-11 | ZERO is a two-sided identity of `add` |
| Complex.AddZeroCommutes | src/lib/quantum/complex.js:8-11 | adding ZERO on either side gives the value back, and `add` is commutative |
| Complex.Multiply | src/lib/quantum/complex.js:13-16 | the product as defined; its laws are stated by `MultiplyOneZero`, `MultiplyCommutes`, `ISquared` and `MagnitudeSqMultiply` below |
| Complex.MultiplyOneZero | src/lib/quantum/complex.js:13-16 | ONE is a two-sided identity of `multiply`, and ZERO absorbs on either side |
| Complex.ISquared | src/lib/quantum/complex.js:13-16 | I times I is -1 + 0i |
| Complex.MultiplyCommutes | src/lib/quantum/complex.js:13-16 | `multiply(a, b) == multiply(b, a)` |
| Complex.Conjugate | src/lib/quantum/complex.js:18-21 | the conjugate has the same squared magnitude, and adding it to the value cancels the imaginary part, leaving 2 re + 0i |
| Complex.ConjugateInvolution | src/lib/quantum/complex.js:18-23 | conjugating twice gives the value back, and conjugation keeps `magnitudeSq` |
| Complex.MagnitudeSq | src/lib/quantum/complex.js:23 | the probability weight of an amplitude is never negative |
| Complex.MagnitudeSqZero | src/lib/quantum/complex.js:23 | `magnitudeSq` is never negative and is zero exactly for ZERO |
| Complex.MagnitudeSqMultiply | src/lib/quantum/complex.js:13-23 | the squared magnitude of a product is the product of the squared magnitudes |
| Complex.Scale | src/lib/quantum/complex.js:34-37 | `scale(a, s)` equals multiplying a by the real number `create(s)` |
| Bits.FlipBitBits | src/lib/quantum/engine.js:24-26 | the partner index toggles bit b and keeps every other bit, so `i OR step` on an index with bit b clear flips only that bit |
| Bits.FlipBitTwice | src/lib/quantum/engine.js:24-26 | the partner of the partner is the index itself, so every pair is visited from its low member only |
| Bits.FlipBitInRange | src/lib/quantum/engine.js:95-96 | for b below n, the partner of an index below 2^n is below 2^n, so `idx1 >= this.size` never holds |
| Bits.BitSetIsLarge | src/lib/quantum/engine.js:24 | an index whose bit b is set is at least 2^b |
| Gates.TypeName | src/lib/quantum/engine.js:133-154 | for a well-kinded descriptor, its type is one of the six known strings exactly when it is not `Unknown` |
| Gates.SingleQubit | src/components/ControlPanel.jsx:36 | the descriptor `{type: kind, target}` has that type and target, is not CNOT/CCNOT, and is `Unknown` only for an unknown kind |
| Engine.StateVector.constructor | src/lib/quantum/engine.js:4-10 | size is 2^numQubits; amplitude 0 is ONE and every other amplitude is ZERO |
| Engine.StateVector.ApplyGate | src/lib/quantum/engine.js:17-47 | the new amplitudes are `GateSeq`: for each index with bit t clear, its pair is mapped by the 2x2 matrix; nothing changes when t >= numQubits |
| Engine.StateVector.ApplyH | src/lib/quantum/engine.js:49-56 | `applyGate` with `[[h, h], [h, -h]]` |
| Engine.StateVector.ApplyX | src/lib/quantum/engine.js:58-64 | `applyGate` with `[[0, 1], [1, 0]]` |
| Engine.StateVector.ApplyS | src/lib/quantum/engine.js:66-72 | `applyGate` with `[[1, 0], [0, i]]` |
| Engine.StateVector.ApplyT | src/lib/quantum/engine.js:74-81 | `applyGate` with `[[1, 0], [0, h + hi]]` |
| Engine.StateVector.SwapControlled | src/lib/quantum/engine.js:89-102 | after the in-place loop over a copied buffer, each index holds its partner's amplitude exactly when the pair's low member has every control bit set (`SwapSeq`) |
| Engine.StateVector.ApplyCNOT | src/lib/quantum/engine.js:83-104 | amplitudes become `SwapSeq` with the single control; nothing changes when an operand is out of range |
| Engine.StateVector.ApplyCCNOT | src/lib/quantum/engine.js:106-127 | amplitudes become `SwapSeq` with both controls; nothing changes when an operand is out of range |
| Engine.StateVector.RunGate | src/lib/quantum/engine.js:133-154 | one pass of the switch: the amplitudes become `Step` of the old ones, and an unknown type leaves them unchanged |
| Engine.RunCircuit | src/lib/quantum/engine.js:130-157 | the returned state vector has numQubits qubits and amplitudes `Run(n, gates)`: the gates applied in order to the all-zeros state |
| EngineProperties.OutOfRangeIsNoOp | src/lib/quantum/engine.js:18 | a gate with any operand at or above n leaves the amplitudes unchanged (the bounds checks at lines 18, 84, 107) |
| EngineProperties.XSwaps | src/lib/quantum/engine.js:58-64 | X on qubit t moves the amplitude at j XOR 2^t to j, for every j |
| EngineProperties.SPhase | src/lib/quantum/engine.js:66-72 | S multiplies by i every amplitude whose bit t is set and keeps the rest |
| EngineProperties.TPhase | src/lib/quantum/engine.js:74-81 | T multiplies by h + hi every amplitude whose bit t is set and keeps the rest |
| EngineProperties.HadamardPairTwice | src/lib/quantum/engine.js:49-56 | on one pair, the H step applied twice gives (a, b) back when 2 h^2 == 1 |
| EngineProperties.HTwice | src/lib/quantum/engine.js:49-56 | `applyH(t)` twice leaves every amplitude as it was (2 h^2 == 1) |
| EngineProperties.XTwice | src/lib/quantum/engine.js:58-64 | `applyX(t)` twice leaves every amplitude as it was |
| EngineProperties.SwapsPartner | src/lib/quantum/engine.js:89-101 | an index and its partner are swapped together or not at all |
| EngineProperties.SwapTwice | src/lib/quantum/engine.js:83-127 | CNOT and CCNOT, applied twice with the same operands, leave every amplitude as it was |
| EngineProperties.SwapsOneControl | src/lib/quantum/engine.js:91-93 | with control c != t, the pair of j is swapped exactly when bit c of j is set |
| EngineProperties.CnotAction | src/lib/quantum/engine.js:83-104 | CNOT(c, t) with c != t: index j takes the amplitude at j XOR 2^t when bit c of j is set, and keeps its own otherwise |
| EngineProperties.CnotSameQubit | src/lib/quantum/engine.js:91-93 | CNOT whose control is its target changes nothing: no index has the control bit set and the target bit clear |
| EngineProperties.SwapsTwoControls | src/lib/quantum/engine.js:115-116 | with controls different from t, the pair of j is swapped exactly when both control bits of j are set |
| EngineProperties.CcnotAction | src/lib/quantum/engine.js:106-127 | CCNOT(c1, c2, t): index j takes the amplitude at j XOR 2^t exactly when bits c1 and c2 of j are set |
| EngineProperties.CcnotTargetIsControl | src/lib/quantum/engine.js:115-116 | CCNOT whose target is one of its controls changes nothing |
| EngineProperties.ApplyConcat | src/lib/quantum/engine.js:132-155 | running a + b is running a, then b on the result |
| EngineProperties.UnknownSkipped | src/lib/quantum/engine.js:152-153 | a descriptor whose type is none of the six known names, anywhere in the list, gives the same result as leaving it out |
| EngineProperties.RunEmpty | src/lib/quantum/engine.js:130-131 | with no gates the result is the all-zeros state |
| EngineProperties.RunXOnOneQubit | src/lib/quantum/engine.js:58-64 | X(0) on one qubit turns [1, 0] into [0, 1] |
| EngineProperties.XOnTwoQubits | src/lib/quantum/engine.js:58-64 | X(0) on the two-qubit all-zeros state gives amplitude 1 at index 1 |
| EngineProperties.CnotOnTwoQubits | src/lib/quantum/engine.js:83-104 | CNOT(0, 1) moves amplitude 1 from index 1 to index 3 |
| EngineProperties.RunXThenCnot | src/lib/quantum/engine.js:130-157 | X(0) then CNOT(0, 1) on two qubits ends in the state 11 (index 3) |
| Probability.XKeepsPairNorm | src/lib/quantum/engine.js:58-64 | X keeps the sum of the squared magnitudes of every pair |
| Probability.SKeepsPairNorm | src/lib/quantum/engine.js:66-72 | S keeps the sum of the squared magnitudes of every pair |
| Probability.TKeepsPairNorm | src/lib/quantum/engine.js:74-81 | T keeps the sum of the squared magnitudes of every pair when 2 h^2 == 1 |
| Probability.HadamardPairNorm | src/lib/quantum/engine.js:49-56 | `magnitudeSq(h a + h b) + magnitudeSq(h a - h b)` equals `magnitudeSq(a) + magnitudeSq(b)` when 2 h^2 == 1 |
| Probability.HKeepsPairNorm | src/lib/quantum/engine.js:49-56 | H keeps the sum of the squared magnitudes of every pair when 2 h^2 == 1 |
| Probability.PairedNorm | src/lib/quantum/engine.js:22-45 | two states whose squared magnitudes agree on every pair (j, j XOR 2^t) have the same total |
| Probability.GateSeqKeepsNorm | src/lib/quantum/engine.js:17-47 | `applyGate` with a matrix that keeps each pair's sum keeps the total probability |
| Probability.SwapSeqKeepsNorm | src/lib/quantum/engine.js:83-127 | CNOT and CCNOT keep the total probability |
| Probability.StepKeepsNorm | src/lib/quantum/engine.js:133-154 | every gate of the switch, known or not, keeps the total probability |
| Probability.ApplyKeepsNorm | src/lib/quantum/engine.js:132-155 | a whole gate list keeps the total probability |
| Probability.InitialNorm | src/lib/quantum/engine.js:7-9 | the all-zeros state has total probability 1 |
| Probability.RunIsNormalised | src/lib/quantum/engine.js:130-157 | the amplitudes `runCircuit` returns have total probability 1 |
| Pruning.Prune | src/app/page.js:41-47 | the result is no longer than the input, and each gate in it is in the input and fits |
| Pruning.OnQubitCountChange | src/app/page.js:40-51 | the gate list after the effect is the filtered list, whether or not `setGates` was called |
| Pruning.Keep | src/app/page.js:41-47 | the filter callback keeps a gate exactly when its target and every control it has are below the qubit count, the gates the engine acts on |
| Pruning.PruneMembership | src/app/page.js:41-47 | a gate is in the result exactly when it is in the input and fits |
| Pruning.PruneCounts | src/app/page.js:41-47 | a gate that fits occurs as often as in the input; one that does not fit is gone |
| Pruning.PruneIsSubsequence | src/app/page.js:41-47 | the result keeps the input order |
| Pruning.PruneLength | src/app/page.js:48-50 | the lengths agree exactly when every gate fits, and then the result is the input, so `setGates` runs exactly when a gate was dropped |
| Pruning.PruneIdempotent | src/app/page.js:41-50 | filtering again changes nothing, so a second pass never calls `setGates` |
| Pruning.ApplyPruned | src/app/page.js:41-47 | applying the pruned list to any state gives what the full list gives |
| Pruning.RunPruned | src/app/page.js:41-47 | `runCircuit` on the pruned list equals `runCircuit` on the full list |
| Editing.SafeInt | src/components/ControlPanel.jsx:19-23 | NaN gives 0; a number is clamped to [0, max], and kept when already in range |
| Editing.SafeIntIdempotent | src/components/ControlPanel.jsx:19-23 | clamping a clamped value changes nothing |
| Editing.AddGate | src/components/ControlPanel.jsx:25-39 | the old gates followed by one new gate of the selected type; the gate is well kinded (its type is recognised exactly when the engine recognises the string), and each operand is kept when below numQubits and becomes numQubits - 1 when at or above it, so it fits |
| Editing.RemoveGate | src/components/ControlPanel.jsx:41-43 | an index in range removes exactly that gate and keeps the order; any other index changes nothing |
| Editing.RemoveUndoesAdd | src/components/ControlPanel.jsx:25-43 | removing the gate just added gives the list back |
| Editing.AddGateKeepsFit | src/components/ControlPanel.jsx:25-39 | adding a gate to a list that fits leaves a list the page's filter keeps whole |
| Diagram.Span | src/components/CircuitDiagram.jsx:31-43 | a qubit is listed exactly when it lies between the gate's lowest and highest operand; every operand is listed; a single-qubit gate lists its target alone |
| Diagram.SpanOf | src/components/CircuitDiagram.jsx:32-43 | the loop builds exactly `Span(g)` |
| Diagram.IsOccupied | src/components/CircuitDiagram.jsx:29 | true exactly when some listed qubit already holds a gate in the layer |
| Diagram.Occupy | src/components/CircuitDiagram.jsx:48 | the listed qubits now hold the gate, and every other cell is as before |
| Diagram.Fill | src/components/CircuitDiagram.jsx:48 | the `forEach` writes exactly `Occupy` |
| Diagram.FirstFree | src/components/CircuitDiagram.jsx:45-52 | the first layer where the span is free: every earlier layer is occupied on it, and the layer count when none is free |
| Diagram.FindLayer | src/components/CircuitDiagram.jsx:46-52 | the search stops at `FirstFree` |
| Diagram.PlaceGate | src/components/CircuitDiagram.jsx:45-57 | one gate is written into the first free layer, or into a new layer appended at the end |
| Diagram.PlaceGates | src/components/CircuitDiagram.jsx:31-58 | the layers after the loop are `Layering(gates)` |
| Diagram.LayeringCorrect | src/components/CircuitDiagram.jsx:31-58 | every gate occupies its whole span in its own layer, and no later gate overwrites it; every cell belongs to a gate of that layer whose span covers the qubit; there are at most as many layers as gates; each gate skipped an earlier layer only because an earlier gate there overlaps it |
| Diagram.SameLayerDisjoint | src/components/CircuitDiagram.jsx:45-58 | two gates in the same layer have disjoint spans |
| Diagram.LayeringSize | src/components/CircuitDiagram.jsx:45-58 | there are never more layers than gates, and every cell names one of the gates |
| Diagram.GatePlaced | src/components/CircuitDiagram.jsx:45-58 | gate j is written on every qubit of its span in the layer it was placed in |
| Diagram.NatToString | src/components/CircuitDiagram.jsx:61 | `i.toString()` is a non-empty string of decimal digits, with one digit below 10 and two below 100 |
| Diagram.NatToStringValue | src/components/CircuitDiagram.jsx:61 | reading the digits back gives i, so distinct qubits get distinct labels |
| Diagram.PadEnd | src/components/CircuitDiagram.jsx:61 | `padEnd(len, c)` keeps the string as its prefix and fills with c up to len; a string already that long is unchanged |
| Diagram.CellText | src/components/CircuitDiagram.jsx:64-79 | an empty cell is `----`; on a CNOT/CCNOT it is `[C]-` on the target, `-o--` on a control, the vertical-bar cell between; any other gate draws `[type]-` padded with `-` to 4 |
| Diagram.AppendCells | src/components/CircuitDiagram.jsx:64-80 | every line gets the cell of its qubit in the layer appended |
| Diagram.AppendMarks | src/components/CircuitDiagram.jsx:83 | every line gets `[M]` appended |
| Diagram.RenderLines | src/components/CircuitDiagram.jsx:60-83 | line i is the label, then the cells of qubit i layer by layer, then `[M]` |
| Diagram.Ascii | src/components/CircuitDiagram.jsx:25 | the map of zero or fewer qubits is the empty string |
| Diagram.GenerateAscii | src/components/CircuitDiagram.jsx:24-85 | the returned text is the lines joined with line breaks (`Ascii`) |
| Diagram.JoinNewlines | src/components/CircuitDiagram.jsx:84 | joining n lines without line breaks gives exactly n - 1 line breaks |
| Diagram.CellWidth | src/components/CircuitDiagram.jsx:66-79 | with one-letter type names every cell is four characters wide |
| Diagram.RowWidth | src/components/CircuitDiagram.jsx:63-81 | the cells of a line span 4 characters per layer |
| Diagram.RowCell | src/components/CircuitDiagram.jsx:63-81 | the cell of layer k sits at columns 4k to 4k + 3 of the cells |
| Diagram.LabelWidth | src/components/CircuitDiagram.jsx:60-61 | while qubit numbers fit the padding, every label `qN: -` is labelPad + 4 wide |
| Diagram.LinesAligned | src/components/CircuitDiagram.jsx:60-83 | all lines of the map have the same width, labelPad + 4 per layer + 7 |
| Diagram.GateCell | src/components/CircuitDiagram.jsx:63-80 | a gate is the entry of its own layer on every qubit of its span, and its cell there is drawn as `[C]-`, `-o--` or the vertical-bar cell for CNOT/CCNOT, and as `[type]-` on the target of any other gate |
| Diagram.LineCell | src/components/CircuitDiagram.jsx:61-83 | on line q, the characters 4k to 4k + 3 after the label are the cell of layer k |
| Diagram.GateShown | src/components/CircuitDiagram.jsx:45-83 | on line q of every qubit of its span, gate j is the entry of the layer it was placed in, and the four columns of that layer show its cell: `[C]-`, `-o--` or the vertical-bar cell for CNOT/CCNOT, `[type]-` on the target of any other gate |
| Diagram.CellNoBreak | src/components/CircuitDiagram.jsx:64-79 | a cell holds no line break when type names hold none |
| Diagram.RowNoBreak | src/components/CircuitDiagram.jsx:63-81 | the cells of a line hold no line break |
| Diagram.LineNoBreak | src/components/CircuitDiagram.jsx:61-83 | a whole line holds no line break |
| Diagram.AsciiLineCount | src/components/CircuitDiagram.jsx:24-85 | the map of n >= 1 qubits has exactly n - 1 line breaks, one line per qubit |

## Left out

- `magnitude`, `phase` and `fromPhase` (src/lib/quantum/complex.js:25-32) use square roots and trigonometry. Nothing in the modelled core calls them.
- Floating point: amplitudes are exact reals, so the model does not round as IEEE doubles do.
- `Math.sqrt(2)`: the value is not computed. It is the parameter `h`, and the lemmas that need it require `2 h^2 == 1`.
- `1 << t` is 32-bit in JavaScript. Operands above 30 are not modelled: with at most ten qubits every shift stays small, and the model uses exact powers of two.
- The `!a || !b` guard of `applyGate` (src/lib/quantum/engine.js:31): with operands below `numQubits` both amplitudes always exist, so the guard never fires and is not modelled.
- `console.warn` for an unknown gate type: the output is not modelled. The gate is skipped, as in the source.
- React state, effects, timers, the canvas visualiser (src/components/QuantumVisualizer.jsx), the random circuit generator (src/lib/quantum/utils.js) and the page layout: UI outside the circuit core.
- `parseInt` is not modelled. Its result reaches `SafeInt` as `Some(n)`, or `None` for NaN.
- Editing.AddGate: requires `numQubits >= 1` and non-negative target and controls. The qubit slider has minimum 1, and `safeInt` keeps the operands at 0 or above. With zero qubits the source would build operands of -1, which the gate type's natural-number operands cannot hold.
- Descriptors whose `type` is "CNOT" or "CCNOT" but lack control fields are not represented: `Unknown` carries only unknown type strings (`WellKinded`).
- Layers are maps from qubit to the gate's position in the list, not arrays holding the gate object. The position identifies the object, even when two descriptors are equal.
- Diagram.LinesAligned: requires one-letter type names and at most 100 qubits. The editor offers only H, X, S, T, CNOT and CCNOT, and the slider allows at most ten qubits. Longer names draw wider cells, and qubit numbers of three digits would outgrow the padding.
- Diagram.GateShown: requires one-letter type names, as for `LinesAligned`.
- Engine.StateVector.constructor: always succeeds. The source's `new Array(Math.pow(2, numQubits))` throws a RangeError from 32 qubits on, and memory runs out well before that; the qubit slider keeps numQubits at most 10.
- Diagram.AsciiLineCount: requires that no type name holds a line break.
