// The registered elements of a circuit and what one call of their `compute`
// does to the signal values (Gates.swift, IO.swift, and the default no-op
// `compute` of Module.swift).

module Elements {
  import opened Nets
  import opened Gates
  import opened Io

  /** One element with the pins it owns.  `BareGate` is the `Gate` base class,
      which has the pin layout `a`, `b`, `y` but inherits the empty `compute`. */
  datatype Element =
    | Not(input: PinId, out: PinId)
    | Gate(kind: GateKind, a: PinId, b: PinId, y: PinId)
    | BareGate(a: PinId, b: PinId, y: PinId)
    | Switch(switchType: SwitchType, isOn: bool, out: PinId)
    | Led(input: PinId)

  /** Every pin of `e` exists in a pin table of size `n`. */
  predicate PinsWithin(e: Element, n: nat)
  {
    match e
    case Not(i, o) => i < n && o < n
    case Gate(_, a, b, y) => a < n && b < n && y < n
    case BareGate(a, b, y) => a < n && b < n && y < n
    case Switch(_, _, o) => o < n
    case Led(i) => i < n
  }

  /** The value table after one call of `e.compute()`, statement by statement
      as `compute` is written (a switch writes `isOn` first and may then
      overwrite it with `!isOn`). */
  function Compute(e: Element, pins: seq<Option<SignalId>>, values: seq<bool>): (r: seq<bool>)
    requires Allocated(values, pins) && PinsWithin(e, |pins|)
    ensures |r| == |values| && Allocated(r, pins)
  {
    match e
    case Not(i, o) => Written(values, pins, o, NotOutput(State(values, pins, i)))
    case Gate(k, a, b, y) => Written(values, pins, y, GateOutput(k, State(values, pins, a), State(values, pins, b)))
    case BareGate(_, _, _) => values
    case Switch(t, on, o) =>
      var first := Written(values, pins, o, on);
      if Inverted(t) then Written(first, pins, o, !on) else first
    case Led(_) => values
  }

  /** The signal that `compute` writes to, if any: the output pin's signal
      for an inverter, a gate or a switch; nothing for an LED or a bare gate. */
  function Driven(e: Element, pins: seq<Option<SignalId>>): (r: Option<SignalId>)
    requires PinsWithin(e, |pins|)
  {
    match e
    case Not(_, o) => pins[o]
    case Gate(_, _, _, y) => pins[y]
    case Switch(_, _, o) => pins[o]
    case BareGate(_, _, _) => None
    case Led(_) => None
  }

  /** The value `compute` finally leaves on the output pin. */
  function Eval(e: Element, pins: seq<Option<SignalId>>, values: seq<bool>): (r: bool)
    requires Allocated(values, pins) && PinsWithin(e, |pins|)
  {
    match e
    case Not(i, _) => NotOutput(State(values, pins, i))
    case Gate(k, a, b, _) => GateOutput(k, State(values, pins, a), State(values, pins, b))
    case Switch(t, on, _) => SwitchOutput(t, on)
    case BareGate(_, _, _) => false
    case Led(_) => false
  }

  /** The signals whose values `compute` reads (through the input pins). */
  function Reads(e: Element, pins: seq<Option<SignalId>>): (r: set<SignalId>)
    requires PinsWithin(e, |pins|)
  {
    match e
    case Not(i, _) => SignalOf(pins, i)
    case Gate(_, a, b, _) => SignalOf(pins, a) + SignalOf(pins, b)
    case Led(i) => SignalOf(pins, i)
    case BareGate(_, _, _) => {}
    case Switch(_, _, _) => {}
  }

  function SignalOf(pins: seq<Option<SignalId>>, p: PinId): (r: set<SignalId>)
    requires p < |pins|
  {
    if pins[p].Some? then {pins[p].value} else {}
  }

  /** What one `compute` amounts to: a single write of `Eval` to the driven
      signal, every other signal untouched; with no driven signal (an LED, a
      bare gate, an output pin never connected) nothing changes. */
  lemma ComputeDrives(e: Element, pins: seq<Option<SignalId>>, values: seq<bool>)
    requires Allocated(values, pins) && PinsWithin(e, |pins|)
    ensures Driven(e, pins).Some? ==> Driven(e, pins).value < |values|
    ensures Compute(e, pins, values)
            == if Driven(e, pins).Some? then values[Driven(e, pins).value := Eval(e, pins, values)] else values
  {
    if e.Switch? {
      WriteTwice(values, pins, e.out, e.isOn, !e.isOn);
    }
  }

  /** The value `compute` writes depends only on the signals it reads: a gate
      never reads its own previous output. */
  lemma EvalReadsOnlyInputs(e: Element, pins: seq<Option<SignalId>>, v1: seq<bool>, v2: seq<bool>)
    requires Allocated(v1, pins) && Allocated(v2, pins) && PinsWithin(e, |pins|)
    requires |v1| == |v2| && forall s :: s in Reads(e, pins) && s < |v1| ==> v1[s] == v2[s]
    ensures Eval(e, pins, v1) == Eval(e, pins, v2)
  {
  }

  /** After a gate's `compute`, its output reads the gate's function of the
      input values read before the call, and every pin on another net reads
      what it read before. */
  lemma GateCompute(e: Element, pins: seq<Option<SignalId>>, values: seq<bool>, q: PinId)
    requires e.Gate? && Allocated(values, pins) && PinsWithin(e, |pins|) && q < |pins|
    ensures pins[e.y].Some? ==>
              State(Compute(e, pins, values), pins, e.y)
              == GateOutput(e.kind, State(values, pins, e.a), State(values, pins, e.b))
    ensures !SameNet(pins, e.y, q) ==> State(Compute(e, pins, values), pins, q) == State(values, pins, q)
  {
    ReadAfterWrite(values, pins, e.y, GateOutput(e.kind, State(values, pins, e.a), State(values, pins, e.b)), q);
    ReadAfterWrite(values, pins, e.y, GateOutput(e.kind, State(values, pins, e.a), State(values, pins, e.b)), e.y);
  }

  /** After an inverter's `compute`, its output reads the negation of the input
      read before, and every pin on another net is unaffected. */
  lemma NotCompute(e: Element, pins: seq<Option<SignalId>>, values: seq<bool>, q: PinId)
    requires e.Not? && Allocated(values, pins) && PinsWithin(e, |pins|) && q < |pins|
    ensures pins[e.out].Some? ==>
              State(Compute(e, pins, values), pins, e.out) == !State(values, pins, e.input)
    ensures !SameNet(pins, e.out, q) ==> State(Compute(e, pins, values), pins, q) == State(values, pins, q)
  {
    ReadAfterWrite(values, pins, e.out, !State(values, pins, e.input), q);
    ReadAfterWrite(values, pins, e.out, !State(values, pins, e.input), e.out);
  }

  /** After a switch's `compute`, its output reads `isOn`, inverted for a
      pushbutton that is not normally off, whatever it read before. */
  lemma SwitchCompute(e: Element, pins: seq<Option<SignalId>>, values: seq<bool>, q: PinId)
    requires e.Switch? && Allocated(values, pins) && PinsWithin(e, |pins|) && q < |pins|
    ensures pins[e.out].Some? ==>
              State(Compute(e, pins, values), pins, e.out)
              == SwitchOutput(e.switchType, e.isOn)
    ensures !SameNet(pins, e.out, q) ==> State(Compute(e, pins, values), pins, q) == State(values, pins, q)
  {
    ComputeDrives(e, pins, values);
  }
}
