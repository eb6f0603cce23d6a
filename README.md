# Logic playground simulation engine in Dafny

This project models the simulation engine of the logic-playground simulator, a
Swift playground in which gates, switches and lights are wired on a grid and
the circuit is re-evaluated after every tap.

The engine has four parts:

- **Signals, pins and wires** (`Signal_Wire_Pin.swift`). A `Pin` either has no
  signal or shares a mutable boolean `Signal` object with every other pin of
  its net. Reading a pin without a signal gives `false`, and writing to it is
  dropped. Here signals and pins live in arenas: a signal is an index into a
  value table, and a pin is an index into a table holding its optional signal.
  Two pins alias one signal exactly when they hold the same index
  (`nets.dfy`).
- **Net unification** (`Circuit.connect` and `Circuit.mergeSignals`). `connect`
  records a wire and then takes one of three paths:
  - neither pin has a signal: both get a fresh low signal;
  - exactly one pin has a signal: the other pin adopts it;
  - both pins have signals: every recorded wire cached on `b`'s signal, with
    both of its pins, is repointed to `a`'s signal.

  `connection.dfy` states this on values as the function `Connect`, with its
  invariants and the partition theorem.
- **Evaluation** (`Circuit.simulate`). `simulate` runs `elements.count` passes.
  Each pass calls `compute` on every element in registration order
  (`simulation.dfy`). `convergence.dfy` proves what those passes achieve on a
  network without feedback.
- **Elements** (`Gates.swift`, `IO.swift`). The elements are:
  - the inverter and the six two-input gates (`gates.dfy`);
  - the bare `Gate` base class, which keeps the empty `compute`;
  - a `Switch` whose `isOn` changes only through touch events, with a polarity
    rule for pushbuttons (`io.dfy`);
  - an `Led` that only reads its input.

  What one `compute` does to the value table is in `elements.dfy`.

The mutable state is in `circuit.dfy`. `Circuits.Circuit` has these fields:
- `values`: the signal values;
- `pins`: every pin's signal;
- `connections`: the recorded wires;
- `elements`: the registered elements.

Its methods update these fields in place, following the Swift methods:
- `Connect` appends the wire and then takes its branch;
- `MergeSignals` runs the loop over the wires (`RepointLoop`) on copies of the
  wire and pin tables, and assigns both fields once after the loop; the Swift
  loop mutates each wire and pin as it goes, which leads to the same final
  tables;
- `Simulate` runs nested pass loops;
- `Compute` writes through pins;
- the touch handlers update a switch's `isOn`.

Each method's `ensures` ties the new state to the pure function that
specifies it. The properties are proved about those functions.

Main results:
- **Partition.** After any series of `connect` calls on an unwired circuit, two
  distinct pins share a signal exactly when a path of wires joins them
  (`ConnectAllPartition`). The same holds for a circuit built by interleaving
  element creation with `connect`: the class predicate `Partitioned` holds
  for a new circuit and is kept by every element constructor, by allocating
  signals and pins, and by `Connect`
  (`NetsPartitioned` states what it means).
- **Convergence.** Take a network without feedback in which each signal has at
  most one driver. Then the `n` passes over `n` elements reach a fixed point
  (`SimulateSettles`), and a second `simulate` changes nothing
  (`SimulateIdempotent`). The result is the unique settled table that keeps
  the undriven signals, which is the combinational function of the inputs
  (`SimulateIsCombinational`).

## Model

| member | source | states |
|---|---|---|
| Nets.ReadAfterWrite | simulator.playground/Sources/Signal_Wire_Pin.swift:69-71 | After `state = v` through pin `p`, every pin on `p`'s net reads `v` and every other pin reads what it read before; through a pin with no signal the write changes no signal at all. |
| Nets.WriteTwice | simulator.playground/Sources/Signal_Wire_Pin.swift:69-71 | Two writes through one pin leave only the second value. |
| Io.ToggleTap | simulator.playground/Sources/IO.swift:101-120 | A tap on a toggle (press, then release) flips `isOn`, and two taps restore it. |
| Io.PushbuttonPolarity | simulator.playground/Sources/IO.swift:76-120 | A pushbutton starts released. Whatever its state, after a press it drives `normallyOff`, and after a release or a cancel it drives `!normallyOff`. |
| Elements.ComputeDrives | simulator.playground/Sources/IO.swift:81-99 | Any element's `compute`, including the switch's two successive writes, amounts to one write of the element's output value to its output pin's signal. With no driven signal (an LED, a bare gate, an unconnected output) nothing changes. |
| Elements.EvalReadsOnlyInputs | simulator.playground/Sources/Gates.swift:52-99 | The value a gate writes depends only on the signals of its input pins, never on its own previous output. |
| Elements.GateCompute | simulator.playground/Sources/Gates.swift:52-99 | After a gate's `compute`, `y` reads the gate's function of the inputs read before; pins on other nets are unchanged. |
| Elements.NotCompute | simulator.playground/Sources/Gates.swift:43-45 | After `Not.compute`, `out` reads `!input`; pins on other nets are unchanged. |
| Elements.SwitchCompute | simulator.playground/Sources/IO.swift:81-99 | After `Switch.compute`, `out` reads `isOn`, inverted for a pushbutton that is not normally off; pins on other nets are unchanged. |
| Connection.RepointWiresAt | simulator.playground/Sources/Circuit.swift:56-64 | Every wire cached on `b` now caches `a` and keeps its endpoints; every other wire is unchanged. |
| Connection.RepointPinsAt | simulator.playground/Sources/Circuit.swift:56-64 | A pin is set to `a` by the merge exactly when it is an endpoint of a wire cached on `b`; every other pin keeps its signal. |
| Connection.RepointConsistent | simulator.playground/Sources/Circuit.swift:56-64 | The merge leaves every pin and wire referring to an existing signal. |
| Connection.ConnectRecordsWire | simulator.playground/Sources/Circuit.swift:18-35 | `connect` appends exactly one wire `(a, b)` at the end, caching the signal `a` ends up with. Earlier wires keep their endpoints and order, and no pin is added or removed. |
| Connection.ConnectKeepsValues | simulator.playground/Sources/Circuit.swift:18-35 | `connect` writes no signal value; only the fresh-signal branch extends the table, with one low value. |
| Connection.ConnectFresh | simulator.playground/Sources/Circuit.swift:21-24 | Neither pin had a signal: both pins and the new wire refer to one newly allocated low signal; no other pin changes. |
| Connection.ConnectAdopt | simulator.playground/Sources/Circuit.swift:25-30 | Exactly one pin had a signal: the other pin and the new wire adopt it; values and other pins are unchanged. |
| Connection.ConnectKeepsPartition | simulator.playground/Sources/Circuit.swift:18-64 | On a net where the invariant holds and every net is joined by wires, `connect` keeps both and puts `a` and `b` on one net. |
| Connection.NetsPartitioned | simulator.playground/Sources/Circuit.swift:18-64 | Under both invariants, two distinct pins share a signal exactly when a path of wires joins them. |
| Connection.GrowKeepsInvariants | simulator.playground/Sources/Signal_Wire_Pin.swift:29-35 | Allocating new signals and new pins without a signal keeps every reference in range and keeps both invariants. |
| Connection.WellFormedOnWire | simulator.playground/Sources/Circuit.swift:56-64 | Under the invariant, a pin is an endpoint of a wire cached on `s` exactly when it holds `s`. |
| Connection.ConnectMerge | simulator.playground/Sources/Circuit.swift:31-34 | Both pins had signals (on a well-formed net): every pin on `b`'s net and every wire cached on `b`'s signal moves to `a`'s signal; everything else is unchanged; values are kept. The new wire caches `a`'s signal. Once the signals differ, no pin and no wire refers to `b`'s old signal. |
| Connection.ConnectWithinNet | simulator.playground/Sources/Circuit.swift:56-64 | Connecting two pins that already share a signal only appends the wire. |
| Connection.DirectAttachNotMerged | simulator.playground/Pages/Counter.xcplaygroundpage/Contents.swift:110-111 | For example, two pins whose signals were assigned directly are on no wire, so `connect` repoints nothing and they stay on different nets. |
| Connection.ConnectJoinsWhenWired | simulator.playground/Sources/Circuit.swift:56-64 | With no invariant assumed, connecting two pins on different signals puts them on one net exactly when `b` is an endpoint of a wire cached on its own signal; otherwise `b` keeps its old signal. |
| Connection.ConnectWellFormed | simulator.playground/Sources/Circuit.swift:18-35 | `connect` keeps the invariant and leaves `a` and `b` sharing one signal. The invariant: every wire's endpoints carry its cached signal, and every pin with a signal is a wire endpoint. |
| Connection.AttachWellFormed | simulator.playground/Sources/Circuit.swift:21-30 | The fresh-signal and adopt branches keep the invariant and join `a` and `b`. |
| Connection.ExtendWellFormed | simulator.playground/Sources/Circuit.swift:19-30 | Recording a wire whose endpoints now carry its signal keeps the invariant, when no other pin changed and a pin that had a signal kept it. |
| Connection.MergeWellFormed | simulator.playground/Sources/Circuit.swift:31-34 | The merge branch keeps the invariant and joins `a` and `b`. |
| Connection.RepointWellFormed | simulator.playground/Sources/Circuit.swift:56-64 | `mergeSignals` on a well-formed net keeps the invariant. |
| Connection.RepointWiresCarry | simulator.playground/Sources/Circuit.swift:56-64 | After the merge, every wire's endpoints carry its (possibly rewritten) cached signal. |
| Connection.RepointEndpoints | simulator.playground/Sources/Circuit.swift:56-64 | After the merge, every pin with a signal is still a wire endpoint. |
| Connection.AppendWireWellFormed | simulator.playground/Sources/Circuit.swift:31-34 | Recording a wire whose endpoints already carry its signal keeps the invariant. |
| Connection.ConnectAllPartition | simulator.playground/Sources/Circuit.swift:18-64 | After any series of `connect` calls on an unwired circuit, two distinct pins hold the same signal exactly when a path of recorded wires joins them. |
| Connection.ConnectAllInvariant | simulator.playground/Sources/Circuit.swift:18-64 | Any series of `connect` calls on an unwired circuit keeps the invariant, and keeps every net joined by wires. |
| Connection.LinkedSameNet | simulator.playground/Sources/Circuit.swift:18-64 | On a well-formed net, pins joined by a path of wires share one signal. |
| Connection.ConnectLinked | simulator.playground/Sources/Circuit.swift:18-64 | After `connect`, every two pins on one net are joined by a path of wires, if that held before. |
| Connection.ConnectPairLinked | simulator.playground/Sources/Circuit.swift:18-64 | One pair of pins sharing a signal after `connect` is joined by wires, branch by branch. |
| Simulation.ScheduleShape | simulator.playground/Sources/Circuit.swift:72-76 | `simulate` makes `n * n` `compute` calls over `n` elements (none with no elements); call `i` of pass `p` goes to element `i`, so each pass follows registration order. |
| Convergence.StableIsNoop | simulator.playground/Sources/Circuit.swift:72-76 | An element's `compute` changes nothing exactly when its output already holds what it would write. |
| Convergence.SettledIsFixedPoint | simulator.playground/Sources/Circuit.swift:72-76 | On a settled network any sequence of `compute` calls changes nothing. |
| Convergence.PassesSettleRanks | simulator.playground/Sources/Circuit.swift:67-76 | Without feedback and with one driver per signal, after `k` passes every element of rank below `k` is stable. |
| Convergence.SimulateSettles | simulator.playground/Sources/Circuit.swift:67-76 | Without feedback and with one driver per signal, the `n` passes of `simulate` reach a fixed point. |
| Convergence.SimulateIdempotent | simulator.playground/Sources/Circuit.swift:67-76 | Under the same conditions, a second `simulate` leaves every signal as it was. |
| Convergence.RunKeepsUndriven | simulator.playground/Sources/Circuit.swift:72-76 | No `compute` call changes a signal that no element drives. |
| Convergence.SettledUnique | simulator.playground/Sources/Circuit.swift:67-76 | Without feedback, two settled tables that agree on the undriven signals are equal. |
| Convergence.SimulateIsCombinational | simulator.playground/Sources/Circuit.swift:67-76 | Under the same conditions, `simulate`'s result is the unique settled table that keeps the undriven signals: it depends on the inputs and the switches' states, not on the outputs held before. |
| Circuits.Circuit.constructor | simulator.playground/Sources/Circuit.swift:10-13 | A new circuit has no signals, pins, wires or elements, is unwired, and is `Partitioned`. |
| Circuits.Circuit.NewSignal | simulator.playground/Sources/Signal_Wire_Pin.swift:29-35 | `Signal()` and `Signal(high:)` allocate one new signal holding `false` or the given state; `Partitioned` is kept. |
| Circuits.Circuit.NewPin | simulator.playground/Sources/Signal_Wire_Pin.swift:75-78 | A new pin has no signal; `Partitioned` is kept. |
| Circuits.Circuit.AttachSignal | simulator.playground/Pages/Counter.xcplaygroundpage/Contents.swift:110-111 | A direct `pin.signal = s` changes only that pin's signal. |
| Circuits.Circuit.SetState | simulator.playground/Sources/Signal_Wire_Pin.swift:69-71 | The setter writes through the pin's signal: every pin of the net reads the value, other pins are unaffected, and a pin without a signal drops the write. |
| Circuits.Circuit.AddElement | simulator.playground/Sources/Circuit.swift:39-40 | `addElement` appends the element to the list. |
| Circuits.Circuit.AddNot | simulator.playground/Sources/Gates.swift:33-37 | An inverter gets two new unconnected pins `input` and `out` and is registered last; `Partitioned` is kept. |
| Circuits.Circuit.AddGate | simulator.playground/Sources/Gates.swift:13-19 | A gate gets three new unconnected pins `a`, `b`, `y` and is registered last; without a kind it is the bare `Gate`; `Partitioned` is kept. |
| Circuits.Circuit.AddSwitch | simulator.playground/Sources/IO.swift:68-80 | A switch gets a new unconnected `out`, is registered, and `isOn` starts at a toggle's initial state, or off for a pushbutton; `Partitioned` is kept. |
| Circuits.Circuit.AddLed | simulator.playground/Sources/IO.swift:22-33 | An LED gets a new unconnected `input` and is registered last; `Partitioned` is kept. |
| Circuits.Circuit.Connect | simulator.playground/Sources/Circuit.swift:18-35 | The signals, pins and wires become `Connection.Connect` of the old ones; the elements are unchanged; `Partitioned` is kept and `a` and `b` end on one net. |
| Circuits.Circuit.MergeSignals | simulator.playground/Sources/Circuit.swift:56-64 | The wires become `RepointWires` and the pins `RepointPins` of the old ones; every reference stays in range. |
| Circuits.RepointLoop | simulator.playground/Sources/Circuit.swift:57-63 | The loop over the wires in order, repointing each wire cached on `b` and its two pins to `a`, ends with exactly `RepointWires` and `RepointPins` of its inputs. |
| Circuits.Circuit.Compute | simulator.playground/Sources/Gates.swift:43-99 | An element's `compute` leaves the value table as `Elements.Compute` says, and changes nothing else, in particular no `isOn`. |
| Circuits.Circuit.ComputeAll | simulator.playground/Sources/Circuit.swift:73-75 | One pass runs `compute` on every element in registration order. |
| Circuits.Circuit.Simulate | simulator.playground/Sources/Circuit.swift:69-84 | The value table becomes `Simulation.Simulate` of the old one. Elements (and so every `isOn`), wires and pin signals are unchanged. |
| Circuits.Circuit.TouchesBegan | simulator.playground/Sources/IO.swift:101-109 | A pushbutton's `isOn` becomes true; a toggle is unchanged; no other element changes. |
| Circuits.Circuit.TouchesEnded | simulator.playground/Sources/IO.swift:111-120 | A toggle's `isOn` flips, and a pushbutton's becomes false; no other element changes. |
| Circuits.Circuit.TouchesCancelled | simulator.playground/Sources/IO.swift:122-124 | The same effect as `touchesEnded`. |

## Left out

- Rendering is not modelled, because it has no effect on any signal. This covers `Circuit.draw`, the grid, the wire curves and colours, `setNeedsDisplay`, element images and symbols, `LightColor`, `size`, `centerPoint`, `PinDirection`, `Pin.position` and `Pin.direction`.
- The frame arithmetic in `addElement` is not modelled: it is floating-point layout.
- The `Mirror` reflection that sets `Pin.module` is not modelled: it is only used for drawing.
- `Module.swift` is not modelled as a class. Its two effects are folded into the model: the empty default `compute` is the `BareGate` case, and registration on construction is `AddElement` inside each constructor.
- The touch handlers' calls to `circuit.simulate()`, the weak `circuit` reference and the user-interaction flags are not modelled. A touch event is its `isOn` update, after which the caller runs `Simulate`, except that `touchesBegan` on a toggle changes nothing and runs no `simulate` (IO.swift:103-104).
- `Led.compute` chooses an image from `input.state`, which is `Nets.State` of its input pin; the image choice is not modelled.
- Signal lifetimes (reference counting) are not modelled. Signals left unreachable by a merge stay in the value table.
- The playground pages are example wiring scripts and are not modelled. That includes the SR latch. Its feedback loop falls outside the convergence theorem, which assumes no feedback, so no latch or counter behaviour is proved.
- The `connect` lemmas about merging and the invariant assume `WellFormed`. `Connection.DirectAttachNotMerged` shows that a direct `pin.signal` assignment, as on the Counter page, breaks `WellFormed`. A later `connect(a, b)` can then leave the nets apart: `Connection.ConnectJoinsWhenWired` shows that when `b` lies on no wire cached on its signal, nothing repoints it.
- Convergence needs a rank function as a witness of "no feedback"; the model does not compute one from the wiring.
- Swift's object identity (`===` on signals) is modelled as equality of arena indices. A fresh `Signal()` always gets a new index.
