// Net unification by `Circuit.connect` and `Circuit.mergeSignals`
// (Circuit.swift), stated on the tables of signal values, pin signals and
// recorded wires.

module Connection {
  import opened Nets

  /** The part of the circuit that `connect` works on: the signal value
      table, the signal of every pin, and the recorded wires in order. */
  datatype Net = Net(values: seq<bool>, pins: seq<Option<SignalId>>, wires: seq<Wire>)

  /** Every reference in the tables points at an existing entry. */
  predicate Consistent(n: Net)
  {
    Allocated(n.values, n.pins) &&
    forall j :: 0 <= j < |n.wires| ==>
      n.wires[j].a < |n.pins| && n.wires[j].b < |n.pins| &&
      (n.wires[j].signal.Some? ==> n.wires[j].signal.value < |n.values|)
  }

  /** Pin `p` is an endpoint of some wire cached on signal `s`. */
  predicate OnWireOf(ws: seq<Wire>, s: SignalId, p: PinId)
  {
    exists j :: 0 <= j < |ws| && ws[j].signal == Some(s) && (ws[j].a == p || ws[j].b == p)
  }

  /** Pin `p` is an endpoint of some wire. */
  predicate Endpoint(ws: seq<Wire>, p: PinId)
  {
    exists j :: 0 <= j < |ws| && (ws[j].a == p || ws[j].b == p)
  }

  /** The invariant that `connect` keeps: every wire's endpoints carry the
      wire's cached signal, and every pin with a signal is a wire endpoint.
      A direct assignment to `Pin.signal` (as the counter example page does
      for two always-on segments) breaks it. */
  predicate WellFormed(n: Net)
  {
    Consistent(n) &&
    (forall j :: 0 <= j < |n.wires| ==>
       n.wires[j].signal.Some? &&
       n.pins[n.wires[j].a] == n.wires[j].signal && n.pins[n.wires[j].b] == n.wires[j].signal) &&
    (forall p :: 0 <= p < |n.pins| && n.pins[p].Some? ==> Endpoint(n.wires, p))
  }

  /** The wires after `mergeSignals(a, b)`: each wire whose cached signal is
      `b` now caches `a`; every other wire is as it was. */
  function RepointWires(ws: seq<Wire>, a: SignalId, b: SignalId): (r: seq<Wire>)
    ensures |r| == |ws|
  {
    if ws == [] then []
    else
      var w := ws[|ws| - 1];
      RepointWires(ws[..|ws| - 1], a, b) + [if w.signal == Some(b) then Wire(w.a, w.b, Some(a)) else w]
  }

  /** Wire by wire: the wires cached on `b` now cache `a`, keeping their
      endpoints; the others are unchanged. */
  lemma {:induction false} RepointWiresAt(ws: seq<Wire>, a: SignalId, b: SignalId)
    ensures forall j :: 0 <= j < |ws| ==>
              RepointWires(ws, a, b)[j] == if ws[j].signal == Some(b) then Wire(ws[j].a, ws[j].b, Some(a)) else ws[j]
    decreases |ws|
  {
    if ws != [] {
      var init := ws[..|ws| - 1];
      RepointWiresAt(init, a, b);
      forall j | 0 <= j < |ws| - 1
        ensures RepointWires(ws, a, b)[j] == if ws[j].signal == Some(b) then Wire(ws[j].a, ws[j].b, Some(a)) else ws[j]
      {
        assert init[j] == ws[j];
      }
    }
  }

  /** The pin signals after `mergeSignals(a, b)`: the endpoints of the wires
      cached on `b` are set to `a`, wire by wire. */
  function RepointPins(pins: seq<Option<SignalId>>, ws: seq<Wire>, a: SignalId, b: SignalId): (r: seq<Option<SignalId>>)
    requires forall j :: 0 <= j < |ws| ==> ws[j].a < |pins| && ws[j].b < |pins|
    ensures |r| == |pins|
  {
    if ws == [] then pins
    else
      var w := ws[|ws| - 1];
      var r := RepointPins(pins, ws[..|ws| - 1], a, b);
      if w.signal == Some(b) then r[w.a := Some(a)][w.b := Some(a)] else r
  }

  /** After `mergeSignals(a, b)` exactly the endpoints of the wires cached on
      `b` hold `a`; every other pin keeps its signal. */
  lemma {:induction false} RepointPinsAt(pins: seq<Option<SignalId>>, ws: seq<Wire>, a: SignalId, b: SignalId, q: PinId)
    requires forall j :: 0 <= j < |ws| ==> ws[j].a < |pins| && ws[j].b < |pins|
    requires q < |pins|
    ensures RepointPins(pins, ws, a, b)[q] == if OnWireOf(ws, b, q) then Some(a) else pins[q]
    decreases |ws|
  {
    if ws != [] {
      var w := ws[|ws| - 1];
      var init := ws[..|ws| - 1];
      RepointPinsAt(pins, init, a, b, q);
      if OnWireOf(ws, b, q) {
        var j :| 0 <= j < |ws| && ws[j].signal == Some(b) && (ws[j].a == q || ws[j].b == q);
        if j < |ws| - 1 {
          assert init[j] == ws[j];
        }
      }
    }
  }

  /** Rewriting wires and pins to an existing signal keeps every reference in range. */
  lemma RepointConsistent(n: Net, a: SignalId, b: SignalId)
    requires Consistent(n) && a < |n.values|
    ensures Consistent(Net(n.values, RepointPins(n.pins, n.wires, a, b), RepointWires(n.wires, a, b)))
  {
    forall q | 0 <= q < |n.pins|
      ensures RepointPins(n.pins, n.wires, a, b)[q] == n.pins[q] || RepointPins(n.pins, n.wires, a, b)[q] == Some(a)
    {
      RepointPinsAt(n.pins, n.wires, a, b, q);
    }
    RepointWiresAt(n.wires, a, b);
  }

  /** `connect(a, b)`: record a wire from `a` to `b` and unify the nets of
      the two pins, branch by branch as `Circuit.connect` takes them. */
  function Connect(n: Net, a: PinId, b: PinId): (r: Net)
    requires Consistent(n) && a < |n.pins| && b < |n.pins|
    ensures Consistent(r)
  {
    match (n.pins[a], n.pins[b])
    case (None, None) =>
      var s := |n.values|;
      Net(n.values + [false], n.pins[a := Some(s)][b := Some(s)], n.wires + [Wire(a, b, Some(s))])
    case (None, Some(sb)) =>
      Net(n.values, n.pins[a := Some(sb)], n.wires + [Wire(a, b, Some(sb))])
    case (Some(sa), None) =>
      Net(n.values, n.pins[b := Some(sa)], n.wires + [Wire(a, b, Some(sa))])
    case (Some(sa), Some(sb)) =>
      RepointConsistent(n, sa, sb);
      var ps := RepointPins(n.pins, n.wires, sa, sb);
      Net(n.values, ps, RepointWires(n.wires, sa, sb) + [Wire(a, b, ps[a])])
  }

  /** `connect` appends exactly one wire, from `a` to `b`, caching the signal
      `a` holds afterwards; the earlier wires keep their endpoints and their
      order, and no pin is added or removed. */
  lemma ConnectRecordsWire(n: Net, a: PinId, b: PinId)
    requires Consistent(n) && a < |n.pins| && b < |n.pins|
    ensures var r := Connect(n, a, b);
      |r.pins| == |n.pins| && |r.wires| == |n.wires| + 1 &&
      r.pins[a].Some? && r.wires[|n.wires|] == Wire(a, b, r.pins[a]) &&
      forall j :: 0 <= j < |n.wires| ==> r.wires[j].a == n.wires[j].a && r.wires[j].b == n.wires[j].b
  {
    if n.pins[a].Some? && n.pins[b].Some? {
      RepointWiresAt(n.wires, n.pins[a].value, n.pins[b].value);
      RepointPinsAt(n.pins, n.wires, n.pins[a].value, n.pins[b].value, a);
    }
  }

  /** `connect` never writes a signal value: the value table is unchanged,
      except that connecting two pins without signals adds one new low signal. */
  lemma ConnectKeepsValues(n: Net, a: PinId, b: PinId)
    requires Consistent(n) && a < |n.pins| && b < |n.pins|
    ensures var r := Connect(n, a, b);
      if n.pins[a] == None && n.pins[b] == None then r.values == n.values + [false]
      else r.values == n.values
  {
  }

  /** Neither pin has a signal: both pins and the new wire refer to one newly
      allocated low signal, and no other pin changes. */
  lemma ConnectFresh(n: Net, a: PinId, b: PinId)
    requires Consistent(n) && a < |n.pins| && b < |n.pins|
    requires n.pins[a] == None && n.pins[b] == None
    ensures var r := Connect(n, a, b);
      var s := |n.values|;
      r.pins[a] == r.pins[b] == Some(s) && !r.values[s] &&
      r.wires == n.wires + [Wire(a, b, Some(s))] &&
      forall q :: 0 <= q < |n.pins| && q != a && q != b ==> r.pins[q] == n.pins[q]
  {
  }

  /** Exactly one pin has a signal: the other pin and the new wire adopt that
      same signal, and nothing else changes. */
  lemma ConnectAdopt(n: Net, a: PinId, b: PinId)
    requires Consistent(n) && a < |n.pins| && b < |n.pins|
    requires n.pins[a].Some? != n.pins[b].Some?
    ensures var r := Connect(n, a, b);
      var s := if n.pins[a].Some? then n.pins[a] else n.pins[b];
      r.pins[a] == r.pins[b] == s && r.values == n.values &&
      r.wires == n.wires + [Wire(a, b, s)] &&
      forall q :: 0 <= q < |n.pins| && q != a && q != b ==> r.pins[q] == n.pins[q]
  {
  }

  /** Under the invariant, a pin lies on a wire cached on `s` exactly when
      the pin holds `s`. */
  lemma WellFormedOnWire(n: Net, s: SignalId, q: PinId)
    requires WellFormed(n) && q < |n.pins|
    ensures OnWireOf(n.wires, s, q) <==> n.pins[q] == Some(s)
  {
    if n.pins[q] == Some(s) {
      assert Endpoint(n.wires, q);
      var j :| 0 <= j < |n.wires| && (n.wires[j].a == q || n.wires[j].b == q);
      assert n.wires[j].signal == Some(s);
    }
  }

  /** Both pins have signals (a merge): on a well-formed net every pin of
      `b`'s net, not just `b`, moves to `a`'s signal, every wire cached on
      `b`'s signal now caches `a`'s, and every other pin and wire is as it
      was.  Once the signals differ, `b`'s old signal is unreachable: no pin
      and no wire refers to it any more. */
  lemma ConnectMerge(n: Net, a: PinId, b: PinId)
    requires WellFormed(n) && a < |n.pins| && b < |n.pins|
    requires n.pins[a].Some? && n.pins[b].Some?
    ensures var r := Connect(n, a, b);
      var sa, sb := n.pins[a].value, n.pins[b].value;
      r.values == n.values &&
      (forall q :: 0 <= q < |n.pins| ==> r.pins[q] == if n.pins[q] == Some(sb) then Some(sa) else n.pins[q]) &&
      (forall j :: 0 <= j < |n.wires| ==>
         r.wires[j] == if n.wires[j].signal == Some(sb) then Wire(n.wires[j].a, n.wires[j].b, Some(sa)) else n.wires[j]) &&
      r.wires[|n.wires|] == Wire(a, b, Some(sa)) &&
      (sa != sb ==>
         (forall q :: 0 <= q < |r.pins| ==> r.pins[q] != Some(sb)) &&
         (forall j :: 0 <= j < |r.wires| ==> r.wires[j].signal != Some(sb)))
  {
    var sa, sb := n.pins[a].value, n.pins[b].value;
    forall q | 0 <= q < |n.pins|
      ensures RepointPins(n.pins, n.wires, sa, sb)[q] == if n.pins[q] == Some(sb) then Some(sa) else n.pins[q]
    {
      WellFormedOnWire(n, sb, q);
      RepointPinsAt(n.pins, n.wires, sa, sb, q);
    }
    RepointWiresAt(n.wires, sa, sb);
  }

  /** Connecting two pins that already share a signal changes no pin and no
      earlier wire: the merge finds nothing to rewrite. */
  lemma ConnectWithinNet(n: Net, a: PinId, b: PinId)
    requires WellFormed(n) && a < |n.pins| && b < |n.pins|
    requires SameNet(n.pins, a, b)
    ensures Connect(n, a, b) == Net(n.values, n.pins, n.wires + [Wire(a, b, n.pins[a])])
  {
    var s := n.pins[a].value;
    forall q | 0 <= q < |n.pins|
      ensures RepointPins(n.pins, n.wires, s, s)[q] == n.pins[q]
    {
      WellFormedOnWire(n, s, q);
      RepointPinsAt(n.pins, n.wires, s, s, q);
    }
    RepointWiresAt(n.wires, s, s);
    assert RepointPins(n.pins, n.wires, s, s) == n.pins;
    assert RepointWires(n.wires, s, s) == n.wires;
  }

  /** Without the invariant the merge can miss a pin: two pins given their
      signals by direct assignment lie on no wire, so connecting them
      repoints nothing and they stay on different nets. */
  lemma DirectAttachNotMerged()
    ensures var n := Net([false, true], [Some(0), Some(1)], []);
      Consistent(n) && !WellFormed(n) &&
      Connect(n, 0, 1) == Net([false, true], [Some(0), Some(1)], [Wire(0, 1, Some(0))]) &&
      !SameNet(Connect(n, 0, 1).pins, 0, 1)
  {
    var n := Net([false, true], [Some(0), Some(1)], []);
    assert !Endpoint(n.wires, 0);
  }

  /** With no invariant assumed, connecting two pins on different signals
      joins them exactly when `b` is an endpoint of a wire cached on its own
      signal: the merge repoints only such endpoints, and `a` keeps its
      signal. */
  lemma ConnectJoinsWhenWired(n: Net, a: PinId, b: PinId)
    requires Consistent(n) && a < |n.pins| && b < |n.pins|
    requires n.pins[a].Some? && n.pins[b].Some? && n.pins[a] != n.pins[b]
    ensures SameNet(Connect(n, a, b).pins, a, b) <==> OnWireOf(n.wires, n.pins[b].value, b)
  {
    var sa, sb := n.pins[a].value, n.pins[b].value;
    RepointPinsAt(n.pins, n.wires, sa, sb, a);
    RepointPinsAt(n.pins, n.wires, sa, sb, b);
  }

  /** `connect` keeps the invariant and leaves `a` and `b` on one net. */
  lemma ConnectWellFormed(n: Net, a: PinId, b: PinId)
    requires WellFormed(n) && a < |n.pins| && b < |n.pins|
    ensures WellFormed(Connect(n, a, b))
    ensures SameNet(Connect(n, a, b).pins, a, b)
  {
    if n.pins[a].Some? && n.pins[b].Some? {
      MergeWellFormed(n, a, b);
    } else {
      AttachWellFormed(n, a, b);
    }
  }

  /** The branches that attach a signal to an unconnected pin keep the invariant. */
  lemma AttachWellFormed(n: Net, a: PinId, b: PinId)
    requires WellFormed(n) && a < |n.pins| && b < |n.pins|
    requires n.pins[a] == None || n.pins[b] == None
    ensures WellFormed(Connect(n, a, b)) && SameNet(Connect(n, a, b).pins, a, b)
  {
    var r := Connect(n, a, b);
    var w := Wire(a, b, r.pins[a]);
    assert r.wires == n.wires + [w];
    assert r.pins[a] == r.pins[b] && r.pins[a].Some?;
    ExtendWellFormed(n, r.values, r.pins, w);
  }

  /** Recording a wire whose endpoints now carry its cached signal keeps the
      invariant when no other pin changed and an endpoint that already had a
      signal kept it. */
  lemma ExtendWellFormed(n: Net, vs: seq<bool>, ps: seq<Option<SignalId>>, w: Wire)
    requires WellFormed(n) && Consistent(Net(vs, ps, n.wires + [w])) && |ps| == |n.pins|
    requires w.a < |ps| && w.b < |ps| && w.signal.Some? && ps[w.a] == w.signal && ps[w.b] == w.signal
    requires forall q :: 0 <= q < |ps| && q != w.a && q != w.b ==> ps[q] == n.pins[q]
    requires n.pins[w.a].Some? ==> ps[w.a] == n.pins[w.a]
    requires n.pins[w.b].Some? ==> ps[w.b] == n.pins[w.b]
    ensures WellFormed(Net(vs, ps, n.wires + [w]))
  {
    var ws := n.wires + [w];
    forall j | 0 <= j < |ws|
      ensures ws[j].signal.Some? && ps[ws[j].a] == ws[j].signal && ps[ws[j].b] == ws[j].signal
    {
      if j < |n.wires| {
        assert ws[j] == n.wires[j];
      }
    }
    forall p | 0 <= p < |ps| && ps[p].Some?
      ensures Endpoint(ws, p)
    {
      if p == w.a || p == w.b {
        assert ws[|n.wires|] == w;
      } else {
        var j :| 0 <= j < |n.wires| && (n.wires[j].a == p || n.wires[j].b == p);
        assert ws[j] == n.wires[j];
      }
    }
  }

  /** The merge branch keeps the invariant. */
  lemma MergeWellFormed(n: Net, a: PinId, b: PinId)
    requires WellFormed(n) && a < |n.pins| && b < |n.pins|
    requires n.pins[a].Some? && n.pins[b].Some?
    ensures WellFormed(Connect(n, a, b)) && SameNet(Connect(n, a, b).pins, a, b)
  {
    var sa, sb := n.pins[a].value, n.pins[b].value;
    var m := Net(n.values, RepointPins(n.pins, n.wires, sa, sb), RepointWires(n.wires, sa, sb));
    RepointWellFormed(n, sa, sb);
    WellFormedOnWire(n, sb, a);
    WellFormedOnWire(n, sb, b);
    RepointPinsAt(n.pins, n.wires, sa, sb, a);
    RepointPinsAt(n.pins, n.wires, sa, sb, b);
    assert m.pins[a] == Some(sa) && m.pins[b] == Some(sa);
    AppendWireWellFormed(m, Wire(a, b, Some(sa)));
    assert Connect(n, a, b) == Net(m.values, m.pins, m.wires + [Wire(a, b, Some(sa))]);
  }

  /** Rewriting every wire cached on `sb`, and its endpoints, to `sa` keeps the
      invariant. */
  lemma RepointWellFormed(n: Net, sa: SignalId, sb: SignalId)
    requires WellFormed(n) && sa < |n.values|
    ensures WellFormed(Net(n.values, RepointPins(n.pins, n.wires, sa, sb), RepointWires(n.wires, sa, sb)))
  {
    var ps := RepointPins(n.pins, n.wires, sa, sb);
    var ws := RepointWires(n.wires, sa, sb);
    RepointConsistent(n, sa, sb);
    RepointWiresCarry(n, sa, sb, ps, ws);
    RepointEndpoints(n, sa, sb, ps, ws);
  }

  /** After the merge, both endpoints of every wire carry the wire's cached signal. */
  lemma RepointWiresCarry(n: Net, sa: SignalId, sb: SignalId, ps: seq<Option<SignalId>>, ws: seq<Wire>)
    requires WellFormed(n) && sa < |n.values|
    requires ps == RepointPins(n.pins, n.wires, sa, sb) && ws == RepointWires(n.wires, sa, sb)
    ensures forall j :: 0 <= j < |ws| ==>
              ws[j].signal.Some? && ws[j].a < |ps| && ws[j].b < |ps| &&
              ps[ws[j].a] == ws[j].signal && ps[ws[j].b] == ws[j].signal
  {
    RepointWiresAt(n.wires, sa, sb);
    forall j | 0 <= j < |ws|
      ensures ws[j].signal.Some? && ws[j].a < |ps| && ws[j].b < |ps| &&
              ps[ws[j].a] == ws[j].signal && ps[ws[j].b] == ws[j].signal
    {
      var w := n.wires[j];
      RepointPinsAt(n.pins, n.wires, sa, sb, w.a);
      RepointPinsAt(n.pins, n.wires, sa, sb, w.b);
      if w.signal == Some(sb) {
        assert OnWireOf(n.wires, sb, w.a) && OnWireOf(n.wires, sb, w.b);
      } else {
        WellFormedOnWire(n, sb, w.a);
        WellFormedOnWire(n, sb, w.b);
      }
    }
  }

  /** After the merge, every pin that holds a signal is still an endpoint of some wire. */
  lemma RepointEndpoints(n: Net, sa: SignalId, sb: SignalId, ps: seq<Option<SignalId>>, ws: seq<Wire>)
    requires WellFormed(n)
    requires ps == RepointPins(n.pins, n.wires, sa, sb) && ws == RepointWires(n.wires, sa, sb)
    ensures forall p :: 0 <= p < |ps| && ps[p].Some? ==> Endpoint(ws, p)
  {
    RepointWiresAt(n.wires, sa, sb);
    forall p | 0 <= p < |ps| && ps[p].Some?
      ensures Endpoint(ws, p)
    {
      RepointPinsAt(n.pins, n.wires, sa, sb, p);
      if OnWireOf(n.wires, sb, p) {
        var j :| 0 <= j < |n.wires| && n.wires[j].signal == Some(sb) && (n.wires[j].a == p || n.wires[j].b == p);
        assert ws[j].a == n.wires[j].a && ws[j].b == n.wires[j].b;
      } else {
        var j :| 0 <= j < |n.wires| && (n.wires[j].a == p || n.wires[j].b == p);
        assert ws[j].a == n.wires[j].a && ws[j].b == n.wires[j].b;
      }
    }
  }

  /** Recording a wire whose endpoints already carry its cached signal keeps
      the invariant. */
  lemma AppendWireWellFormed(n: Net, w: Wire)
    requires WellFormed(n) && w.a < |n.pins| && w.b < |n.pins|
    requires w.signal.Some? && n.pins[w.a] == w.signal && n.pins[w.b] == w.signal
    ensures WellFormed(Net(n.values, n.pins, n.wires + [w]))
  {
    var ws := n.wires + [w];
    forall p | 0 <= p < |n.pins| && n.pins[p].Some?
      ensures Endpoint(ws, p)
    {
      var j :| 0 <= j < |n.wires| && (n.wires[j].a == p || n.wires[j].b == p);
      assert ws[j] == n.wires[j];
    }
  }

  /** Some recorded wire joins pins `p` and `q` (a wire has no direction). */
  predicate Joined(ws: seq<Wire>, p: PinId, q: PinId)
  {
    exists j :: 0 <= j < |ws| && ((ws[j].a == p && ws[j].b == q) || (ws[j].a == q && ws[j].b == p))
  }

  /** A walk along recorded wires. */
  predicate IsPath(ws: seq<Wire>, path: seq<PinId>)
  {
    |path| > 0 && forall i :: 0 <= i < |path| - 1 ==> Joined(ws, path[i], path[i + 1])
  }

  /** Pins `p` and `q` are transitively connected by wires. */
  ghost predicate Linked(ws: seq<Wire>, p: PinId, q: PinId)
  {
    exists path :: IsPath(ws, path) && path[0] == p && path[|path| - 1] == q
  }

  /** Every two pins of one net are transitively connected by wires. */
  ghost predicate NetsLinked(n: Net)
  {
    forall p, q :: 0 <= p < |n.pins| && 0 <= q < |n.pins| && SameNet(n.pins, p, q) ==> Linked(n.wires, p, q)
  }

  /** The circuit before any `connect`: no wire, no pin with a signal. */
  predicate Unwired(n: Net)
  {
    n.wires == [] && forall p :: 0 <= p < |n.pins| ==> n.pins[p] == None
  }

  /** The net after a series of `connect` calls, in order. */
  function ConnectAll(n: Net, calls: seq<(PinId, PinId)>): (r: Net)
    requires Consistent(n)
    requires forall i :: 0 <= i < |calls| ==> calls[i].0 < |n.pins| && calls[i].1 < |n.pins|
    ensures Consistent(r) && |r.pins| == |n.pins|
    decreases |calls|
  {
    if calls == [] then n
    else
      var m := ConnectAll(n, calls[..|calls| - 1]);
      Connect(m, calls[|calls| - 1].0, calls[|calls| - 1].1)
  }

  /** Merge correctness: after any series of `connect` calls on an unwired
      circuit, two distinct pins hold the same signal exactly when they are
      transitively connected by wires. */
  lemma {:induction false} ConnectAllPartition(n: Net, calls: seq<(PinId, PinId)>, p: PinId, q: PinId)
    requires Consistent(n) && Unwired(n)
    requires forall i :: 0 <= i < |calls| ==> calls[i].0 < |n.pins| && calls[i].1 < |n.pins|
    requires p < |n.pins| && q < |n.pins| && p != q
    ensures var r := ConnectAll(n, calls);
      SameNet(r.pins, p, q) <==> Linked(r.wires, p, q)
  {
    ConnectAllInvariant(n, calls);
    NetsPartitioned(ConnectAll(n, calls), p, q);
  }

  /** Under both invariants the nets are exactly the classes of pins joined
      by wires: two distinct pins share a signal iff a wire path joins them. */
  lemma NetsPartitioned(n: Net, p: PinId, q: PinId)
    requires WellFormed(n) && NetsLinked(n)
    requires p < |n.pins| && q < |n.pins| && p != q
    ensures SameNet(n.pins, p, q) <==> Linked(n.wires, p, q)
  {
    if Linked(n.wires, p, q) {
      LinkedSameNet(n, p, q);
    }
  }

  /** `connect` keeps both invariants and puts `a` and `b` on one net. */
  lemma ConnectKeepsPartition(n: Net, a: PinId, b: PinId)
    requires Consistent(n) && a < |n.pins| && b < |n.pins|
    ensures WellFormed(n) && NetsLinked(n) ==>
              WellFormed(Connect(n, a, b)) && NetsLinked(Connect(n, a, b)) && SameNet(Connect(n, a, b).pins, a, b)
  {
    if WellFormed(n) && NetsLinked(n) {
      ConnectWellFormed(n, a, b);
      ConnectLinked(n, a, b);
    }
  }

  /** Creating a pin (with no signal) or a signal keeps both invariants, so
      they survive building a circuit by interleaving element creation with
      `connect` calls. */
  lemma GrowKeepsInvariants(n: Net, pins: seq<Option<SignalId>>, values: seq<bool>)
    requires Consistent(n)
    requires |n.values| <= |values| && |n.pins| <= |pins| && pins[..|n.pins|] == n.pins
    requires forall p :: |n.pins| <= p < |pins| ==> pins[p] == None
    ensures var m := Net(values, pins, n.wires);
      Consistent(m) &&
      (WellFormed(n) ==> WellFormed(m)) &&
      (NetsLinked(n) ==> NetsLinked(m))
  {
    var m := Net(values, pins, n.wires);
    forall p | 0 <= p < |n.pins| ensures pins[p] == n.pins[p] {
      assert pins[..|n.pins|][p] == pins[p];
    }
    if NetsLinked(n) {
      forall p, q | 0 <= p < |pins| && 0 <= q < |pins| && SameNet(pins, p, q)
        ensures Linked(m.wires, p, q)
      {
        assert SameNet(n.pins, p, q);
      }
    }
  }

  /** Both invariants hold after any series of `connect` calls on an unwired circuit. */
  lemma {:induction false} ConnectAllInvariant(n: Net, calls: seq<(PinId, PinId)>)
    requires Consistent(n) && Unwired(n)
    requires forall i :: 0 <= i < |calls| ==> calls[i].0 < |n.pins| && calls[i].1 < |n.pins|
    ensures WellFormed(ConnectAll(n, calls)) && NetsLinked(ConnectAll(n, calls))
    decreases |calls|
  {
    if calls == [] {
    } else {
      var init := calls[..|calls| - 1];
      ConnectAllInvariant(n, init);
      var m := ConnectAll(n, init);
      ConnectWellFormed(m, calls[|calls| - 1].0, calls[|calls| - 1].1);
      ConnectLinked(m, calls[|calls| - 1].0, calls[|calls| - 1].1);
    }
  }

  /** Pins joined by a walk along wires of a well-formed net all hold the
      signal of the walk's first pin. */
  lemma {:induction false} PathSameSignal(n: Net, path: seq<PinId>)
    requires WellFormed(n) && IsPath(n.wires, path) && |path| >= 2
    requires forall i :: 0 <= i < |path| ==> path[i] < |n.pins|
    ensures n.pins[path[0]].Some?
    ensures forall i :: 0 <= i < |path| ==> n.pins[path[i]] == n.pins[path[0]]
    decreases |path|
  {
    assert Joined(n.wires, path[0], path[1]);
    if |path| > 2 {
      var tail := path[1..];
      assert IsPath(n.wires, tail) by {
        forall i | 0 <= i < |tail| - 1 ensures Joined(n.wires, tail[i], tail[i + 1]) {
          assert tail[i] == path[i + 1] && tail[i + 1] == path[i + 2];
        }
      }
      PathSameSignal(n, tail);
      forall i | 0 <= i < |path| ensures n.pins[path[i]] == n.pins[path[0]] {
        if i > 0 { assert path[i] == tail[i - 1]; }
      }
    }
  }

  /** Pins transitively connected by wires share one signal. */
  lemma LinkedSameNet(n: Net, p: PinId, q: PinId)
    requires WellFormed(n) && p < |n.pins| && q < |n.pins| && p != q
    requires Linked(n.wires, p, q)
    ensures SameNet(n.pins, p, q)
  {
    var path :| IsPath(n.wires, path) && path[0] == p && path[|path| - 1] == q;
    forall i | 0 <= i < |path| ensures path[i] < |n.pins| {
      if i < |path| - 1 {
        JoinedInRange(n, path[i], path[i + 1]);
      }
    }
    PathSameSignal(n, path);
  }

  /** The pins a wire joins exist. */
  lemma JoinedInRange(n: Net, p: PinId, q: PinId)
    requires Consistent(n) && Joined(n.wires, p, q)
    ensures p < |n.pins| && q < |n.pins|
  {
  }

  /** A pin is linked to itself; a wire links its endpoints either way round. */
  lemma LinkedBase(ws: seq<Wire>, p: PinId, q: PinId)
    ensures Linked(ws, p, p)
    ensures Joined(ws, p, q) ==> Linked(ws, p, q) && Linked(ws, q, p)
  {
    assert IsPath(ws, [p]);
    if Joined(ws, p, q) {
      assert Joined(ws, q, p);
      assert IsPath(ws, [p, q]);
      assert IsPath(ws, [q, p]);
    }
  }

  /** Connectivity is transitive. */
  lemma LinkedTrans(ws: seq<Wire>, p: PinId, q: PinId, r: PinId)
    requires Linked(ws, p, q) && Linked(ws, q, r)
    ensures Linked(ws, p, r)
  {
    var p1 :| IsPath(ws, p1) && p1[0] == p && p1[|p1| - 1] == q;
    var p2 :| IsPath(ws, p2) && p2[0] == q && p2[|p2| - 1] == r;
    var path := p1 + p2[1..];
    forall i | 0 <= i < |path| - 1 ensures Joined(ws, path[i], path[i + 1]) {
      if i < |p1| - 1 {
        assert path[i] == p1[i] && path[i + 1] == p1[i + 1];
      } else {
        assert path[i] == p2[i - |p1| + 1] && path[i + 1] == p2[i - |p1| + 2];
      }
    }
    assert IsPath(ws, path);
  }

  /** Connectivity survives adding wires and rewriting cached signals, as long
      as the earlier wires keep their endpoints. */
  lemma LinkedGrow(ws: seq<Wire>, ws': seq<Wire>, p: PinId, q: PinId)
    requires |ws| <= |ws'|
    requires forall j :: 0 <= j < |ws| ==> ws'[j].a == ws[j].a && ws'[j].b == ws[j].b
    requires Linked(ws, p, q)
    ensures Linked(ws', p, q)
  {
    var path :| IsPath(ws, path) && path[0] == p && path[|path| - 1] == q;
    forall i | 0 <= i < |path| - 1 ensures Joined(ws', path[i], path[i + 1]) {
      assert Joined(ws, path[i], path[i + 1]);
      var j :| 0 <= j < |ws| &&
        ((ws[j].a == path[i] && ws[j].b == path[i + 1]) || (ws[j].a == path[i + 1] && ws[j].b == path[i]));
      assert ws'[j].a == ws[j].a && ws'[j].b == ws[j].b;
    }
    assert IsPath(ws', path);
  }

  /** `connect` keeps every net connected by wires. */
  lemma ConnectLinked(n: Net, a: PinId, b: PinId)
    requires WellFormed(n) && NetsLinked(n) && a < |n.pins| && b < |n.pins|
    ensures NetsLinked(Connect(n, a, b))
  {
    var r := Connect(n, a, b);
    ConnectRecordsWire(n, a, b);
    var k := |n.wires|;
    assert Joined(r.wires, a, b) by { assert r.wires[k].a == a && r.wires[k].b == b; }
    LinkedBase(r.wires, a, b);
    // every pair that shared a signal before is still linked
    forall p, q | 0 <= p < |n.pins| && 0 <= q < |n.pins| && SameNet(n.pins, p, q)
      ensures Linked(r.wires, p, q)
    {
      LinkedGrow(n.wires, r.wires, p, q);
    }
    forall p, q | 0 <= p < |r.pins| && 0 <= q < |r.pins| && SameNet(r.pins, p, q)
      ensures Linked(r.wires, p, q)
    {
      ConnectPairLinked(n, a, b, p, q);
    }
  }

  /** One pair of pins on one net after `connect` is linked (the case analysis
      behind `ConnectLinked`). */
  lemma ConnectPairLinked(n: Net, a: PinId, b: PinId, p: PinId, q: PinId)
    requires WellFormed(n) && a < |n.pins| && b < |n.pins|
    requires |Connect(n, a, b).wires| == |n.wires| + 1
    requires Linked(Connect(n, a, b).wires, a, b) && Linked(Connect(n, a, b).wires, b, a)
    requires forall x, y :: 0 <= x < |n.pins| && 0 <= y < |n.pins| && SameNet(n.pins, x, y) ==>
               Linked(Connect(n, a, b).wires, x, y)
    requires p < |n.pins| && q < |n.pins| && SameNet(Connect(n, a, b).pins, p, q)
    ensures Linked(Connect(n, a, b).wires, p, q)
  {
    var r := Connect(n, a, b);
    var ws := r.wires;
    LinkedBase(ws, p, p);
    if p == q {
    } else if n.pins[a] == None && n.pins[b] == None {
      ConnectFresh(n, a, b);
      if p != a && p != b && q != a && q != b {
        assert SameNet(n.pins, p, q);
      } else if (p == a || p == b) && (q == a || q == b) {
      } else {
        // one pin holds the new signal, the other an older one
        assert false;
      }
    } else if n.pins[a] == None || n.pins[b] == None {
      ConnectAdopt(n, a, b);
      // `u` is the pin that was unconnected, `v` the one that had the signal
      var u, v := if n.pins[a] == None then a else b, if n.pins[a] == None then b else a;
      assert r.pins[u] == n.pins[v];
      assert Linked(ws, u, v) && Linked(ws, v, u);
      if p != u && q != u {
        assert SameNet(n.pins, p, q);
      } else if p == u {
        assert SameNet(n.pins, v, q);
        LinkedTrans(ws, u, v, q);
      } else {
        assert SameNet(n.pins, p, v);
        LinkedTrans(ws, p, v, u);
      }
    } else {
      ConnectMerge(n, a, b);
      var sa, sb := n.pins[a].value, n.pins[b].value;
      if n.pins[p] == n.pins[q] {
        assert SameNet(n.pins, p, q);
      } else if n.pins[p] == Some(sb) {
        assert n.pins[q] == Some(sa);
        assert SameNet(n.pins, p, b) && SameNet(n.pins, a, q);
        LinkedTrans(ws, p, b, a);
        LinkedTrans(ws, p, a, q);
      } else {
        assert n.pins[p] == Some(sa) && n.pins[q] == Some(sb);
        assert SameNet(n.pins, p, a) && SameNet(n.pins, b, q);
        LinkedTrans(ws, p, a, b);
        LinkedTrans(ws, p, b, q);
      }
    }
  }
}
