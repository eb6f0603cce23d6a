// The combinational gates of Gates.swift: the boolean function each gate's
// `compute` applies to the states of its input pins.

module Gates {

  /** The six two-input gates that override `compute`. */
  datatype GateKind = And | Nand | Or | Nor | Xor | Xnor

  /** The value a two-input gate writes to `y` for inputs `a` and `b`. */
  function GateOutput(kind: GateKind, a: bool, b: bool): (r: bool)
  {
    match kind
    case And => a && b
    case Nand => !(a && b)
    case Or => a || b
    case Nor => !(a || b)
    case Xor => a != b
    case Xnor => !(a != b)
  }

  /** The inverter `Not`. */
  function NotOutput(input: bool): (r: bool)
  {
    !input
  }
}
