// Signals, pins and wires of the simulator (Signal_Wire_Pin.swift).
//
// The Swift program shares one mutable `Signal` object between every pin of a net.
// Here the objects live in arenas owned by the circuit: a signal is an index
// into a table of boolean values, a pin is an index into a table that holds
// the pin's optional signal, so two pins alias one signal exactly when they
// hold the same index.

module Nets {

  datatype Option<T> = None | Some(value: T)

  /** Index of a `Signal` object in the value table. */
  type SignalId = nat

  /** Index of a `Pin` object in the pin table. */
  type PinId = nat

  /** A connection between pins `a` and `b`, with the signal it has cached. */
  datatype Wire = Wire(a: PinId, b: PinId, signal: Option<SignalId>)

  /** Every signal a pin refers to exists in the value table. */
  predicate Allocated(values: seq<bool>, pins: seq<Option<SignalId>>)
  {
    forall p :: 0 <= p < |pins| && pins[p].Some? ==> pins[p].value < |values|
  }

  /** `Pin.state` (getter): the value of the attached signal, or low without one. */
  function State(values: seq<bool>, pins: seq<Option<SignalId>>, p: PinId): (r: bool)
    requires Allocated(values, pins) && p < |pins|
  {
    match pins[p]
    case None => false
    case Some(s) => values[s]
  }

  /** The value table after `Pin.state = v` (setter): the write goes to the
      attached signal, and is dropped when the pin has none. */
  function Written(values: seq<bool>, pins: seq<Option<SignalId>>, p: PinId, v: bool): (r: seq<bool>)
    requires Allocated(values, pins) && p < |pins|
    ensures |r| == |values| && Allocated(r, pins)
  {
    match pins[p]
    case None => values
    case Some(s) => values[s := v]
  }

  /** Two pins are on one net when they hold the same signal. */
  predicate SameNet(pins: seq<Option<SignalId>>, p: PinId, q: PinId)
    requires p < |pins| && q < |pins|
  {
    pins[p].Some? && pins[p] == pins[q]
  }

  /** Reading any pin after a write: the pins of the written net read the new
      value, every other pin keeps what it read before.  A write to a pin
      without a signal changes nothing at all. */
  lemma ReadAfterWrite(values: seq<bool>, pins: seq<Option<SignalId>>, p: PinId, v: bool, q: PinId)
    requires Allocated(values, pins) && p < |pins| && q < |pins|
    ensures pins[p] == None ==> Written(values, pins, p, v) == values
    ensures State(Written(values, pins, p, v), pins, q)
            == if SameNet(pins, p, q) then v else State(values, pins, q)
  {
  }

  /** Writing twice through one pin leaves only the second value. */
  lemma WriteTwice(values: seq<bool>, pins: seq<Option<SignalId>>, p: PinId, v: bool, w: bool)
    requires Allocated(values, pins) && p < |pins|
    ensures Written(Written(values, pins, p, v), pins, p, w) == Written(values, pins, p, w)
  {
  }
}
