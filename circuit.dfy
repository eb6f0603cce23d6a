// The circuit engine of Circuit.swift together with the state its methods
// change in place: signal values, pin signals, recorded wires, registered
// elements and the switches' `isOn`.

module Circuits {
  import opened Nets
  import opened Gates
  import opened Io
  import opened Elements
  import opened Connection
  import opened Simulation

  /** A growing pin table keeps every registered element's pins in range. */
  lemma RegisteredGrow(es: seq<Element>, n: nat, m: nat)
    requires n <= m && forall i :: 0 <= i < |es| ==> PinsWithin(es[i], n)
    ensures forall i :: 0 <= i < |es| ==> PinsWithin(es[i], m)
  {
    forall i | 0 <= i < |es| ensures PinsWithin(es[i], m) {
      assert PinsWithin(es[i], n);
    }
  }

  class Circuit {
    /** `Signal.value` of every signal allocated so far. */
    var values: seq<bool>
    /** `Pin.signal` of every pin created so far. */
    var pins: seq<Option<SignalId>>
    /** `connections`: the wires recorded by `connect`, oldest first. */
    var connections: seq<Wire>
    /** `elements`: the registered elements, in registration order. */
    var elements: seq<Element>

    /** Every reference between the tables points at an existing entry. */
    ghost predicate Valid()
      reads this
    {
      Consistent(Net(values, pins, connections)) && Registered(elements, pins)
    }

    /** The nets are exactly the classes of pins joined by wires, with every
        wire's endpoints on its cached signal: `connect` keeps this, and so
        does creating pins and signals; a direct `pin.signal` assignment
        does not. */
    ghost predicate Partitioned()
      reads this
    {
      WellFormed(Wiring()) && NetsLinked(Wiring())
    }

    /** The signals, pins and wires as one value. */
    function Wiring(): Net
      reads this
    {
      Net(values, pins, connections)
    }

    /** An empty circuit. */
    constructor ()
      ensures Valid() && Unwired(Wiring()) && Partitioned()
      ensures values == [] && pins == [] && connections == [] && elements == []
    {
      values, pins, connections, elements := [], [], [], [];
    }

    /** `Signal(high: s)`, and `Signal()` with `high` false: a new signal
        holding `high`, shared by no pin yet. */
    method NewSignal(high: bool) returns (s: SignalId)
      requires Valid()
      modifies this`values
      ensures Valid() && s == |old(values)| && values == old(values) + [high] && values[s] == high
      ensures old(Partitioned()) ==> Partitioned()
    {
      s := |values|;
      GrowKeepsInvariants(Wiring(), pins, values + [high]);
      values := values + [high];
    }

    /** `Pin(position:direction:)`: a new pin with no signal. */
    method NewPin() returns (p: PinId)
      requires Valid()
      modifies this`pins
      ensures Valid() && p == |old(pins)| && pins == old(pins) + [None]
      ensures old(Partitioned()) ==> Partitioned()
    {
      p := |pins|;
      RegisteredGrow(elements, |pins|, |pins| + 1);
      assert (pins + [None])[..|pins|] == pins;
      GrowKeepsInvariants(Wiring(), pins + [None], values);
      pins := pins + [None];
    }

    /** `pin.signal = s`: a direct assignment, as an example page does to keep
        two display segments high; it bypasses `connect`. */
    method AttachSignal(p: PinId, s: SignalId)
      requires Valid() && p < |pins| && s < |values|
      modifies this`pins
      ensures Valid() && pins == old(pins)[p := Some(s)]
    {
      pins := pins[p := Some(s)];
    }

    /** The `Pin.state` setter: writes through the pin's signal, so every pin
        on that net reads `v` afterwards; without a signal the write is
        dropped.  Pins on other nets read what they read before. */
    method SetState(p: PinId, v: bool)
      requires Valid() && p < |pins|
      modifies this`values
      ensures Valid() && values == Written(old(values), pins, p, v)
      ensures forall q :: 0 <= q < |pins| ==>
                State(values, pins, q) == if SameNet(pins, p, q) then v else State(old(values), pins, q)
    {
      match pins[p]
      case None =>
      case Some(s) =>
        values := values[s := v];
    }

    /** `addElement`: append to the element list (the frame arithmetic and
        the pins' back-references serve only the rendering). */
    method AddElement(e: Element)
      requires Valid() && PinsWithin(e, |pins|)
      modifies this`elements
      ensures Valid() && elements == old(elements) + [e]
    {
      elements := elements + [e];
    }

    /** `Not(circuit:position:)`: pins `input` and `out`, then registration. */
    method AddNot() returns (i: nat)
      requires Valid()
      modifies this`pins, this`elements
      ensures Valid() && i == |old(elements)| && (old(Partitioned()) ==> Partitioned())
      ensures pins == old(pins) + [None, None]
      ensures elements == old(elements) + [Not(|old(pins)|, |old(pins)| + 1)]
    {
      var input := NewPin();
      var out := NewPin();
      i := |elements|;
      AddElement(Not(input, out));
    }

    /** The constructor of a two-input gate (`kind` is `None` for the bare
        `Gate` base class): pins `a`, `b`, `y`, then registration. */
    method AddGate(kind: Option<GateKind>) returns (i: nat)
      requires Valid()
      modifies this`pins, this`elements
      ensures Valid() && i == |old(elements)| && (old(Partitioned()) ==> Partitioned())
      ensures pins == old(pins) + [None, None, None]
      ensures var n := |old(pins)|;
        elements == old(elements) + [if kind.Some? then Gate(kind.value, n, n + 1, n + 2) else BareGate(n, n + 1, n + 2)]
    {
      var a := NewPin();
      var b := NewPin();
      var y := NewPin();
      i := |elements|;
      if kind.Some? {
        AddElement(Gate(kind.value, a, b, y));
      } else {
        AddElement(BareGate(a, b, y));
      }
    }

    /** `Switch(circuit:position:type:)`: pin `out`, registration, then
        `isOn` starts as the toggle's initial state or off for a pushbutton. */
    method AddSwitch(t: SwitchType) returns (i: nat)
      requires Valid()
      modifies this`pins, this`elements
      ensures Valid() && i == |old(elements)| && (old(Partitioned()) ==> Partitioned())
      ensures pins == old(pins) + [None]
      ensures elements == old(elements) + [Switch(t, InitialIsOn(t), |old(pins)|)]
    {
      var out := NewPin();
      i := |elements|;
      AddElement(Switch(t, false, out));
      match t
      case Toggle(state) =>
        elements := elements[i := elements[i].(isOn := state)];
      case _ =>
    }

    /** `Led(circuit:position:)`: pin `input`, then registration. */
    method AddLed() returns (i: nat)
      requires Valid()
      modifies this`pins, this`elements
      ensures Valid() && i == |old(elements)| && (old(Partitioned()) ==> Partitioned())
      ensures pins == old(pins) + [None]
      ensures elements == old(elements) + [Led(|old(pins)|)]
    {
      var input := NewPin();
      i := |elements|;
      AddElement(Led(input));
    }

    /** `connect(a, b)`: appends the wire `(a, b)` and unifies the nets of
        the two pins; the elements are untouched. */
    method Connect(a: PinId, b: PinId)
      requires Valid() && a < |pins| && b < |pins|
      modifies this`values, this`pins, this`connections
      ensures Valid() && Wiring() == Connection.Connect(old(Wiring()), a, b)
      ensures elements == old(elements)
      ensures old(Partitioned()) ==> Partitioned() && SameNet(pins, a, b)
    {
      ghost var before := Wiring();
      var k := |connections|;
      connections := connections + [Wire(a, b, None)];
      if pins[a] == None && pins[b] == None {
        var s := NewSignal(false);
        connections := connections[k := Wire(a, b, Some(s))];
        pins := pins[a := Some(s)];
        pins := pins[b := Some(s)];
      } else if pins[a] == None {
        connections := connections[k := Wire(a, b, pins[b])];
        pins := pins[a := connections[k].signal];
      } else if pins[b] == None {
        connections := connections[k := Wire(a, b, pins[a])];
        pins := pins[b := connections[k].signal];
      } else {
        ghost var ws := old(connections);
        ghost var ps := old(pins);
        var sa, sb := pins[a].value, pins[b].value;
        MergeSignals(sa, sb);
        MergeSkipsUnsignalled(ws, ps, Wire(a, b, None), sa, sb);
        connections := connections[k := Wire(a, b, pins[a])];
      }
      assert Wiring() == Connection.Connect(before, a, b);
      assert |pins| == |before.pins|;
      ConnectKeepsPartition(before, a, b);
    }

    /** `mergeSignals(a, b)`: every wire cached on `b`, and both of its pins,
        are repointed to `a`; all other wires and pins are left alone. */
    method MergeSignals(a: SignalId, b: SignalId)
      requires Valid() && a < |values|
      modifies this`pins, this`connections
      ensures Valid()
      ensures connections == RepointWires(old(connections), a, b)
      ensures pins == RepointPins(old(pins), old(connections), a, b)
    {
      RepointConsistent(Wiring(), a, b);
      pins, connections := RepointLoop(connections, pins, a, b);
    }

    /** `compute` of element `i`, dispatched on its kind as the overriding
        methods are. */
    method Compute(i: nat)
      requires Valid() && i < |elements|
      modifies this`values
      ensures Valid() && values == Elements.Compute(elements[i], pins, old(values))
    {
      match elements[i]
      case Not(input, out) =>
        SetState(out, NotOutput(State(values, pins, input)));
      case Gate(kind, a, b, y) =>
        SetState(y, GateOutput(kind, State(values, pins, a), State(values, pins, b)));
      case BareGate(_, _, _) =>
      case Switch(t, on, out) =>
        SetState(out, on);
        match t {
          case Toggle(_) =>
          case LargePushbutton(normallyOff) =>
            if !normallyOff { SetState(out, !on); }
          case Pushbutton(normallyOff) =>
            if !normallyOff { SetState(out, !on); }
        }
      case Led(_) =>
        // the light only chooses its image from the input's state
    }

    /** `simulate()`: `|elements|` passes, each calling `compute` on every
        element in registration order; nothing but signal values changes. */
    method Simulate()
      requires Valid()
      modifies this`values
      ensures Valid() && values == Simulation.Simulate(elements, pins, old(values))
      ensures elements == old(elements) && pins == old(pins) && connections == old(connections)
    {
      var n := |elements|;
      var p := 0;
      while p < n
        invariant 0 <= p <= n && Valid()
        invariant values == Run(elements, pins, old(values), Schedule(n, p))
      {
        ComputeAll();
        RunNextPass(elements, pins, old(values), p);
        p := p + 1;
      }
    }

    /** One pass of the loop in `simulate()`: `compute` on every element in
        registration order. */
    method ComputeAll()
      requires Valid()
      modifies this`values
      ensures Valid() && values == Run(elements, pins, old(values), Pass(|elements|))
    {
      var i := 0;
      while i < |elements|
        invariant 0 <= i <= |elements| && Valid()
        invariant values == Run(elements, pins, old(values), Pass(i))
      {
        Compute(i);
        assert Pass(i + 1)[..i] == Pass(i);
        i := i + 1;
      }
    }

    /** `touchesBegan`: a pushbutton is pressed; a toggle is unchanged. */
    method TouchesBegan(i: nat)
      requires Valid() && i < |elements| && elements[i].Switch?
      modifies this`elements
      ensures Valid()
      ensures elements == old(elements)[i := old(elements[i]).(isOn := TouchBegan(old(elements[i]).switchType, old(elements[i]).isOn))]
    {
      match elements[i].switchType
      case Toggle(_) =>
      case _ =>
        elements := elements[i := elements[i].(isOn := true)];
    }

    /** `touchesEnded`: a toggle flips, a pushbutton is released. */
    method TouchesEnded(i: nat)
      requires Valid() && i < |elements| && elements[i].Switch?
      modifies this`elements
      ensures Valid()
      ensures elements == old(elements)[i := old(elements[i]).(isOn := TouchEnded(old(elements[i]).switchType, old(elements[i]).isOn))]
    {
      match elements[i].switchType
      case Toggle(_) =>
        elements := elements[i := elements[i].(isOn := !elements[i].isOn)];
      case _ =>
        elements := elements[i := elements[i].(isOn := false)];
    }

    /** `touchesCancelled`: the same as `touchesEnded`. */
    method TouchesCancelled(i: nat)
      requires Valid() && i < |elements| && elements[i].Switch?
      modifies this`elements
      ensures Valid()
      ensures elements == old(elements)[i := old(elements[i]).(isOn := TouchCancelled(old(elements[i]).switchType, old(elements[i]).isOn))]
    {
      TouchesEnded(i);
    }
  }

  /** The loop of `mergeSignals` over the wires `ws`, in order, on the pin
      signals `ps`: a wire cached on `b` has its two endpoints and then its
      cache set to `a`. */
  method RepointLoop(ws: seq<Wire>, ps: seq<Option<SignalId>>, a: SignalId, b: SignalId)
    returns (qs: seq<Option<SignalId>>, cs: seq<Wire>)
    requires forall j :: 0 <= j < |ws| ==> ws[j].a < |ps| && ws[j].b < |ps|
    ensures cs == RepointWires(ws, a, b) && qs == RepointPins(ps, ws, a, b)
  {
    cs, qs := ws, ps;
    var i := 0;
    while i < |cs|
      invariant 0 <= i <= |cs| == |ws|
      invariant cs == RepointWires(ws[..i], a, b) + ws[i..]
      invariant qs == RepointPins(ps, ws[..i], a, b) && |qs| == |ps|
    {
      var w := cs[i];
      MergeStepWires(ws, i, a, b);
      MergeStepPins(ws, ps, i, a, b);
      assert w == ws[i] && w.a < |qs| && w.b < |qs|;
      if w.signal == Some(b) {
        qs := qs[w.a := Some(a)];
        qs := qs[w.b := Some(a)];
        cs := cs[i := Wire(w.a, w.b, Some(a))];
      }
      i := i + 1;
    }
    assert ws[..i] == ws;
  }

  /** One iteration of the loop in `mergeSignals` on the wires: visiting
      wire `i` extends the rewritten prefix by that wire. */
  lemma MergeStepWires(ws: seq<Wire>, i: nat, a: SignalId, b: SignalId)
    requires i < |ws|
    ensures (RepointWires(ws[..i], a, b) + ws[i..])[i] == ws[i]
    ensures var w := ws[i];
      RepointWires(ws[..i + 1], a, b) + ws[i + 1..]
      == (RepointWires(ws[..i], a, b) + ws[i..])[i := if w.signal == Some(b) then Wire(w.a, w.b, Some(a)) else w]
  {
    var w := ws[i];
    var w' := if w.signal == Some(b) then Wire(w.a, w.b, Some(a)) else w;
    var done := RepointWires(ws[..i], a, b);
    assert ws[..i + 1][..i] == ws[..i];
    assert RepointWires(ws[..i + 1], a, b) == done + [w'];
    assert ws[i..] == [w] + ws[i + 1..];
    assert (done + ws[i..])[i := w'] == done + [w'] + ws[i + 1..];
  }

  /** One iteration of the loop in `mergeSignals` on the pins: visiting wire
      `i` repoints its endpoints when it is cached on `b`. */
  lemma MergeStepPins(ws: seq<Wire>, ps: seq<Option<SignalId>>, i: nat, a: SignalId, b: SignalId)
    requires i < |ws| && forall j :: 0 <= j < |ws| ==> ws[j].a < |ps| && ws[j].b < |ps|
    ensures var w := ws[i]; var r := RepointPins(ps, ws[..i], a, b);
      RepointPins(ps, ws[..i + 1], a, b) == if w.signal == Some(b) then r[w.a := Some(a)][w.b := Some(a)] else r
  {
    assert ws[..i + 1][..i] == ws[..i];
    assert ws[..i + 1][i] == ws[i];
  }

  /** The merge passes over a wire with no cached signal without change. */
  lemma MergeSkipsUnsignalled(ws: seq<Wire>, ps: seq<Option<SignalId>>, w: Wire, a: SignalId, b: SignalId)
    requires w.signal == None && w.a < |ps| && w.b < |ps|
    requires forall j :: 0 <= j < |ws| ==> ws[j].a < |ps| && ws[j].b < |ps|
    ensures RepointWires(ws + [w], a, b) == RepointWires(ws, a, b) + [w]
    ensures RepointPins(ps, ws + [w], a, b) == RepointPins(ps, ws, a, b)
  {
    assert (ws + [w])[..|ws|] == ws;
  }
}
