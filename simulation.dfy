// The evaluation loop `Circuit.simulate` (Circuit.swift): as many passes as
// there are registered elements, each pass calling `compute` on every element
// in registration order, with no stability check.

module Simulation {
  import opened Nets
  import opened Elements

  /** Every registered element's pins exist in the pin table. */
  predicate Registered(es: seq<Element>, pins: seq<Option<SignalId>>)
  {
    forall i :: 0 <= i < |es| ==> PinsWithin(es[i], |pins|)
  }

  /** Every entry of `order` names a registered element. */
  predicate Indices(order: seq<nat>, n: nat)
  {
    forall k :: 0 <= k < |order| ==> order[k] < n
  }

  /** One pass: the element indices in registration order. */
  function Pass(n: nat): (r: seq<nat>)
    ensures |r| == n && forall i :: 0 <= i < n ==> r[i] == i
  {
    if n == 0 then [] else Pass(n - 1) + [n - 1]
  }

  /** The `compute` calls of `passes` passes over `n` elements, in call order. */
  function Schedule(n: nat, passes: nat): (r: seq<nat>)
    ensures Indices(r, n)
  {
    if passes == 0 then [] else Schedule(n, passes - 1) + Pass(n)
  }

  /** The value table after calling `compute` on the elements `order` names,
      one after the other. */
  function Run(es: seq<Element>, pins: seq<Option<SignalId>>, values: seq<bool>, order: seq<nat>): (r: seq<bool>)
    requires Allocated(values, pins) && Registered(es, pins) && Indices(order, |es|)
    ensures |r| == |values| && Allocated(r, pins)
  {
    if order == [] then values
    else Compute(es[order[|order| - 1]], pins, Run(es, pins, values, order[..|order| - 1]))
  }

  /** The value table after `simulate()`. */
  function Simulate(es: seq<Element>, pins: seq<Option<SignalId>>, values: seq<bool>): (r: seq<bool>)
    requires Allocated(values, pins) && Registered(es, pins)
  {
    Run(es, pins, values, Schedule(|es|, |es|))
  }

  /** `passes` passes over `n` elements make `n * passes` calls of `compute`
      (so `simulate` makes `n * n` of them, and none when there are no
      elements), and pass `p` calls the elements in registration order: its
      `i`-th call goes to element `i`. */
  lemma {:induction false} ScheduleShape(n: nat, passes: nat, p: nat, i: nat)
    ensures |Schedule(n, passes)| == n * passes
    ensures p < passes && i < n ==> p * n + i < n * passes && Schedule(n, passes)[p * n + i] == i
  {
    if passes > 0 {
      ScheduleShape(n, passes - 1, p, i);
      var s := Schedule(n, passes - 1);
      assert n * passes == n * (passes - 1) + n;
      if p == passes - 1 && i < n {
        assert p * n + i == |s| + i;
      }
    }
  }

  /** Pass `p + 1` of `simulate` starts from the values pass `p` left. */
  lemma RunNextPass(es: seq<Element>, pins: seq<Option<SignalId>>, values: seq<bool>, p: nat)
    requires Allocated(values, pins) && Registered(es, pins)
    ensures Run(es, pins, values, Schedule(|es|, p + 1))
            == Run(es, pins, Run(es, pins, values, Schedule(|es|, p)), Pass(|es|))
  {
    RunConcat(es, pins, values, Schedule(|es|, p), Pass(|es|));
  }

  /** Running `s` then `t` is running `s + t`. */
  lemma {:induction false} RunConcat(es: seq<Element>, pins: seq<Option<SignalId>>, values: seq<bool>, s: seq<nat>, t: seq<nat>)
    requires Allocated(values, pins) && Registered(es, pins) && Indices(s, |es|) && Indices(t, |es|)
    ensures Indices(s + t, |es|)
    ensures Run(es, pins, values, s + t) == Run(es, pins, Run(es, pins, values, s), t)
    decreases |t|
  {
    if t != [] {
      var t' := t[..|t| - 1];
      RunConcat(es, pins, values, s, t');
      assert (s + t)[..|s + t| - 1] == s + t';
      assert (s + t)[|s + t| - 1] == t[|t| - 1];
    } else {
      assert s + t == s;
    }
  }
}
