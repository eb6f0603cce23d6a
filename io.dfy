// The input and output elements of IO.swift: the switch's kinds, its `isOn`
// state and how touch events change it, and the polarity rule its `compute`
// applies.

module Io {

  /** `SwitchType`: a toggle with its initial state, or a (small or large)
      pushbutton that is either normally off or normally on. */
  datatype SwitchType =
    | Toggle(initialState: bool)
    | Pushbutton(normallyOff: bool)
    | LargePushbutton(normallyOff: bool)

  /** `isOn` right after `Switch.init`: the initial state of a toggle, off
      for both pushbutton kinds. */
  function InitialIsOn(t: SwitchType): (r: bool)
  {
    if t.Toggle? then t.initialState else false
  }

  /** A pushbutton configured `normallyOff: false` drives the inverse of `isOn`. */
  predicate Inverted(t: SwitchType)
  {
    !t.Toggle? && !t.normallyOff
  }

  /** The value `Switch.compute` leaves on `out`. */
  function SwitchOutput(t: SwitchType, isOn: bool): (r: bool)
  {
    if Inverted(t) then !isOn else isOn
  }

  /** `isOn` after `touchesBegan`: a pushbutton is pressed, a toggle waits. */
  function TouchBegan(t: SwitchType, isOn: bool): (r: bool)
  {
    if t.Toggle? then isOn else true
  }

  /** `isOn` after `touchesEnded`: a toggle flips, a pushbutton is released. */
  function TouchEnded(t: SwitchType, isOn: bool): (r: bool)
  {
    if t.Toggle? then !isOn else false
  }

  /** `isOn` after `touchesCancelled`, which delegates to `touchesEnded`. */
  function TouchCancelled(t: SwitchType, isOn: bool): (r: bool)
  {
    TouchEnded(t, isOn)
  }

  /** A tap on a toggle (press then release) flips it, and two taps restore it. */
  lemma ToggleTap(t: SwitchType, isOn: bool)
    requires t.Toggle?
    ensures TouchEnded(t, TouchBegan(t, isOn)) == !isOn
    ensures TouchEnded(t, TouchBegan(t, TouchEnded(t, TouchBegan(t, isOn)))) == isOn
  {
  }

  /** Pushbutton polarity: a normally-off button drives low until pressed and
      high while held; a normally-on one the reverse.  Whatever its state
      before, a press drives `normallyOff` and a release or a cancel drives
      its opposite. */
  lemma PushbuttonPolarity(t: SwitchType, isOn: bool)
    requires !t.Toggle?
    ensures SwitchOutput(t, InitialIsOn(t)) == !t.normallyOff
    ensures SwitchOutput(t, TouchBegan(t, isOn)) == t.normallyOff
    ensures SwitchOutput(t, TouchEnded(t, isOn)) == !t.normallyOff
    ensures SwitchOutput(t, TouchCancelled(t, isOn)) == !t.normallyOff
  {
  }
}
