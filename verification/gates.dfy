/**
  Gate descriptors: the `{type, target, control, control1, control2}`
  objects that the editor builds, the page prunes, the engine runs and the
  diagram draws.

  The `type` string decides which operand fields are present, so the model
  gives each recognised type its own constructor. `Unknown` stands for a
  descriptor whose type is none of the six the engine dispatches on; it
  keeps that type string and a target, the shape the editor builds for any
  kind other than CNOT and CCNOT.
*/
module Gates {

  datatype Gate =
    | H(target: nat)
    | X(target: nat)
    | S(target: nat)
    | T(target: nat)
    | CNOT(control: nat, target: nat)
    | CCNOT(control1: nat, control2: nat, target: nat)
    | Unknown(kind: string, target: nat)

  /** `Math.min` of two integers. */
  function Min(a: int, b: int): (r: int)
    ensures r <= a && r <= b && (r == a || r == b)
  {
    if a <= b then a else b
  }

  /** `Math.max` of two integers. */
  function Max(a: int, b: int): (r: int)
    ensures r >= a && r >= b && (r == a || r == b)
  {
    if a >= b then a else b
  }

  /** The six type strings the engine's dispatch recognises. */
  predicate KnownKind(kind: string)
  {
    kind in {"H", "X", "S", "T", "CNOT", "CCNOT"}
  }

  /** A descriptor whose `Unknown` kind really is unrecognised. */
  predicate WellKinded(g: Gate)
  {
    g.Unknown? ==> !KnownKind(g.kind)
  }

  /** The descriptor's `type` field. */
  function TypeName(g: Gate): (name: string)
    ensures WellKinded(g) ==> (KnownKind(name) <==> !g.Unknown?)
  {
    match g
    case H(_) => "H"
    case X(_) => "X"
    case S(_) => "S"
    case T(_) => "T"
    case CNOT(_, _) => "CNOT"
    case CCNOT(_, _, _) => "CCNOT"
    case Unknown(kind, _) => kind
  }

  /**
    The single-target descriptor `{type: kind, target}`: one of H, X, S, T
    when `kind` names it, and `Unknown` otherwise. The editor builds it only
    for kinds other than CNOT and CCNOT.
  */
  function SingleQubit(kind: string, target: nat): (g: Gate)
    requires kind != "CNOT" && kind != "CCNOT"
    ensures TypeName(g) == kind && g.target == target
    ensures !g.CNOT? && !g.CCNOT? && WellKinded(g)
  {
    if kind == "H" then H(target)
    else if kind == "X" then X(target)
    else if kind == "S" then S(target)
    else if kind == "T" then T(target)
    else Unknown(kind, target)
  }

  /** Every operand field the descriptor carries is below n. */
  predicate OperandsBelow(g: Gate, n: int)
  {
    match g
    case CNOT(c, t) => c < n && t < n
    case CCNOT(c1, c2, t) => c1 < n && c2 < n && t < n
    case _ => g.target < n
  }
}
