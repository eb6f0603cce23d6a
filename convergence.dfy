// What the fixed pass count of `simulate` achieves on a feedback-free network
// in which every signal has at most one driver (Circuit.swift: "repeat enough
// times and eventually, the circuit should converge to a stable state").

module Convergence {
  import opened Nets
  import opened Elements
  import opened Simulation

  /** The network has no feedback: a rank below the element count that grows
      strictly from every element to every element reading the signal it
      drives.  (A network without feedback always has one: the length of the
      longest chain of elements ending at each element.) */
  ghost predicate FeedbackFree(es: seq<Element>, pins: seq<Option<SignalId>>, rank: seq<nat>)
    requires Registered(es, pins)
  {
    |rank| == |es| &&
    (forall e :: 0 <= e < |es| ==> rank[e] < |es|) &&
    forall d, e ::
      0 <= d < |es| && 0 <= e < |es| && Driven(es[d], pins).Some? && Driven(es[d], pins).value in Reads(es[e], pins)
      ==> rank[d] < rank[e]
  }

  /** At most one element drives each signal. */
  predicate SingleDriver(es: seq<Element>, pins: seq<Option<SignalId>>)
    requires Registered(es, pins)
  {
    forall d, e ::
      0 <= d < |es| && 0 <= e < |es| && Driven(es[d], pins).Some? && Driven(es[d], pins) == Driven(es[e], pins)
      ==> d == e
  }

  /** No element drives signal `s`: only a direct write can set it. */
  predicate Undriven(es: seq<Element>, pins: seq<Option<SignalId>>, s: SignalId)
    requires Registered(es, pins)
  {
    forall e :: 0 <= e < |es| ==> Driven(es[e], pins) != Some(s)
  }

  /** Element `e`'s output already holds what its `compute` would write. */
  predicate Stable(e: Element, pins: seq<Option<SignalId>>, values: seq<bool>)
    requires Allocated(values, pins) && PinsWithin(e, |pins|)
  {
    Driven(e, pins).Some? && Driven(e, pins).value < |values| ==>
      values[Driven(e, pins).value] == Eval(e, pins, values)
  }

  /** Every element is stable: the network is at a fixed point. */
  predicate Settled(es: seq<Element>, pins: seq<Option<SignalId>>, values: seq<bool>)
    requires Allocated(values, pins) && Registered(es, pins)
  {
    forall e :: 0 <= e < |es| ==> Stable(es[e], pins, values)
  }

  /** The elements of rank below `k`, and those of rank `k` before index `i`,
      are stable. */
  ghost predicate Done(es: seq<Element>, pins: seq<Option<SignalId>>, rank: seq<nat>, values: seq<bool>, k: nat, i: nat)
    requires Allocated(values, pins) && Registered(es, pins) && |rank| == |es|
  {
    forall e :: 0 <= e < |es| && (rank[e] < k || (rank[e] == k && e < i)) ==> Stable(es[e], pins, values)
  }

  /** A stable element's `compute` changes nothing, and an element whose
      `compute` changes nothing is stable. */
  lemma StableIsNoop(e: Element, pins: seq<Option<SignalId>>, values: seq<bool>)
    requires Allocated(values, pins) && PinsWithin(e, |pins|)
    ensures Stable(e, pins, values) <==> Compute(e, pins, values) == values
  {
    ComputeDrives(e, pins, values);
    if Compute(e, pins, values) == values && Driven(e, pins).Some? {
      var s := Driven(e, pins).value;
      assert Compute(e, pins, values)[s] == Eval(e, pins, values);
    }
  }

  /** On a settled network any sequence of `compute` calls changes nothing;
      in particular `simulate` does not. */
  lemma {:induction false} SettledIsFixedPoint(es: seq<Element>, pins: seq<Option<SignalId>>, values: seq<bool>, order: seq<nat>)
    requires Allocated(values, pins) && Registered(es, pins) && Indices(order, |es|)
    requires Settled(es, pins, values)
    ensures Run(es, pins, values, order) == values
    decreases |order|
  {
    if order != [] {
      SettledIsFixedPoint(es, pins, values, order[..|order| - 1]);
      StableIsNoop(es[order[|order| - 1]], pins, values);
    }
  }

  /** Computing element `i` keeps the elements already done stable, and adds
      `i` to them when its rank is the current one. */
  lemma StepKeepsDone(es: seq<Element>, pins: seq<Option<SignalId>>, rank: seq<nat>, values: seq<bool>, k: nat, i: nat)
    requires Allocated(values, pins) && Registered(es, pins)
    requires FeedbackFree(es, pins, rank) && SingleDriver(es, pins)
    requires i < |es| && Done(es, pins, rank, values, k, i)
    ensures Done(es, pins, rank, Compute(es[i], pins, values), k, i + 1)
  {
    var v' := Compute(es[i], pins, values);
    ComputeDrives(es[i], pins, values);
    match Driven(es[i], pins)
    case None =>
    case Some(s) =>
      if rank[i] < k {
        assert v' == values;
      } else {
        forall e | 0 <= e < |es| && (rank[e] < k || (rank[e] == k && e < i + 1))
          ensures Stable(es[e], pins, v')
        {
          // the signal `i` writes is neither read nor driven by `e`, unless `e` is `i`
          assert s !in Reads(es[e], pins);
          EvalReadsOnlyInputs(es[e], pins, values, v');
        }
      }
  }

  /** One pass makes the elements of rank `k` stable and keeps those below. */
  lemma {:induction false} PassDone(es: seq<Element>, pins: seq<Option<SignalId>>, rank: seq<nat>, values: seq<bool>, k: nat, i: nat)
    requires Allocated(values, pins) && Registered(es, pins)
    requires FeedbackFree(es, pins, rank) && SingleDriver(es, pins)
    requires i <= |es| && Done(es, pins, rank, values, k, 0)
    ensures Done(es, pins, rank, Run(es, pins, values, Pass(i)), k, i)
  {
    if i > 0 {
      PassDone(es, pins, rank, values, k, i - 1);
      assert Pass(i)[..i - 1] == Pass(i - 1);
      StepKeepsDone(es, pins, rank, Run(es, pins, values, Pass(i - 1)), k, i - 1);
    }
  }

  /** Iteration bound: after `k` passes every element of rank below `k` is
      stable, so a chain of `k` elements has fully propagated. */
  lemma {:induction false} PassesSettleRanks(es: seq<Element>, pins: seq<Option<SignalId>>, rank: seq<nat>, values: seq<bool>, k: nat)
    requires Allocated(values, pins) && Registered(es, pins)
    requires FeedbackFree(es, pins, rank) && SingleDriver(es, pins)
    ensures forall e :: 0 <= e < |es| && rank[e] < k ==> Stable(es[e], pins, Run(es, pins, values, Schedule(|es|, k)))
  {
    var n := |es|;
    if k > 0 {
      PassesSettleRanks(es, pins, rank, values, k - 1);
      var before := Run(es, pins, values, Schedule(n, k - 1));
      PassDone(es, pins, rank, before, k - 1, n);
      RunConcat(es, pins, values, Schedule(n, k - 1), Pass(n));
    }
  }

  /** Convergence: on a feedback-free network with one driver per signal, the
      `n` passes of `simulate` over `n` elements reach a fixed point. */
  lemma SimulateSettles(es: seq<Element>, pins: seq<Option<SignalId>>, rank: seq<nat>, values: seq<bool>)
    requires Allocated(values, pins) && Registered(es, pins)
    requires FeedbackFree(es, pins, rank) && SingleDriver(es, pins)
    ensures Settled(es, pins, Simulate(es, pins, values))
  {
    PassesSettleRanks(es, pins, rank, values, |es|);
  }

  /** A second `simulate` without input changes leaves every signal as it was. */
  lemma SimulateIdempotent(es: seq<Element>, pins: seq<Option<SignalId>>, rank: seq<nat>, values: seq<bool>)
    requires Allocated(values, pins) && Registered(es, pins)
    requires FeedbackFree(es, pins, rank) && SingleDriver(es, pins)
    ensures Simulate(es, pins, Simulate(es, pins, values)) == Simulate(es, pins, values)
  {
    SimulateSettles(es, pins, rank, values);
    SettledIsFixedPoint(es, pins, Simulate(es, pins, values), Schedule(|es|, |es|));
  }

  /** No `compute` call writes a signal that no element drives. */
  lemma {:induction false} RunKeepsUndriven(es: seq<Element>, pins: seq<Option<SignalId>>, values: seq<bool>, order: seq<nat>, s: SignalId)
    requires Allocated(values, pins) && Registered(es, pins) && Indices(order, |es|)
    requires s < |values| && Undriven(es, pins, s)
    ensures Run(es, pins, values, order)[s] == values[s]
    decreases |order|
  {
    if order != [] {
      RunKeepsUndriven(es, pins, values, order[..|order| - 1], s);
      ComputeDrives(es[order[|order| - 1]], pins, Run(es, pins, values, order[..|order| - 1]));
    }
  }

  /** Two settled tables that agree on the undriven signals agree on the
      signals driven by the elements of rank below `k`. */
  lemma {:induction false} SettledAgreeBelow(es: seq<Element>, pins: seq<Option<SignalId>>, rank: seq<nat>, v1: seq<bool>, v2: seq<bool>, k: nat)
    requires Allocated(v1, pins) && Allocated(v2, pins) && Registered(es, pins) && |v1| == |v2|
    requires FeedbackFree(es, pins, rank) && Settled(es, pins, v1) && Settled(es, pins, v2)
    requires forall s :: 0 <= s < |v1| && Undriven(es, pins, s) ==> v1[s] == v2[s]
    ensures forall e :: 0 <= e < |es| && rank[e] < k && Driven(es[e], pins).Some? ==>
              v1[Driven(es[e], pins).value] == v2[Driven(es[e], pins).value]
  {
    if k > 0 {
      SettledAgreeBelow(es, pins, rank, v1, v2, k - 1);
      forall e | 0 <= e < |es| && rank[e] == k - 1 && Driven(es[e], pins).Some?
        ensures v1[Driven(es[e], pins).value] == v2[Driven(es[e], pins).value]
      {
        forall s | s in Reads(es[e], pins) && s < |v1| ensures v1[s] == v2[s] {
          if !Undriven(es, pins, s) {
            var d :| 0 <= d < |es| && Driven(es[d], pins) == Some(s);
            assert rank[d] < rank[e];
          }
        }
        EvalReadsOnlyInputs(es[e], pins, v1, v2);
        ComputeDrives(es[e], pins, v1);
        assert Stable(es[e], pins, v1) && Stable(es[e], pins, v2);
      }
    }
  }

  /** The fixed point is unique: a settled table is determined by the values
      of the undriven signals (and the switches' states held by the
      elements). */
  lemma SettledUnique(es: seq<Element>, pins: seq<Option<SignalId>>, rank: seq<nat>, v1: seq<bool>, v2: seq<bool>)
    requires Allocated(v1, pins) && Allocated(v2, pins) && Registered(es, pins) && |v1| == |v2|
    requires FeedbackFree(es, pins, rank) && Settled(es, pins, v1) && Settled(es, pins, v2)
    requires forall s :: 0 <= s < |v1| && Undriven(es, pins, s) ==> v1[s] == v2[s]
    ensures v1 == v2
  {
    SettledAgreeBelow(es, pins, rank, v1, v2, |es|);
    forall s | 0 <= s < |v1| ensures v1[s] == v2[s] {
      if !Undriven(es, pins, s) {
        var d :| 0 <= d < |es| && Driven(es[d], pins) == Some(s);
      }
    }
  }

  /** `simulate` computes the combinational function of its inputs: its
      result is the one settled table that keeps the undriven signals, so it
      depends only on those signals and on the elements (whose switches hold
      the `isOn` states), not on the outputs held before. */
  lemma SimulateIsCombinational(es: seq<Element>, pins: seq<Option<SignalId>>, rank: seq<nat>, values: seq<bool>, w: seq<bool>)
    requires Allocated(values, pins) && Allocated(w, pins) && Registered(es, pins) && |w| == |values|
    requires FeedbackFree(es, pins, rank) && SingleDriver(es, pins)
    requires Settled(es, pins, w)
    requires forall s :: 0 <= s < |values| && Undriven(es, pins, s) ==> w[s] == values[s]
    ensures Simulate(es, pins, values) == w
  {
    var r := Simulate(es, pins, values);
    SimulateSettles(es, pins, rank, values);
    forall s | 0 <= s < |r| && Undriven(es, pins, s) ensures r[s] == w[s] {
      RunKeepsUndriven(es, pins, values, Schedule(|es|, |es|), s);
    }
    SettledUnique(es, pins, rank, r, w);
  }
}
