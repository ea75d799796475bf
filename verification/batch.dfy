/**
 * The `for (const node of nodes)` loop shared by both reducers, as a fold:
 * each node is dispatched once, in order, and the first error stops the
 * batch with the mutations made so far left in place.
 */
module Batch {
  import opened Values
  import opened Views

  /** The state after one node, and the error it raised, if any. */
  datatype Step<S> = Step(state: S, error: Option<Error>)

  /** The state after a batch, the events it produced and the error that stopped it. */
  datatype Outcome<S> = Outcome(state: S, trace: seq<Event>, error: Option<Error>)

  /** The events recorded for nodes dispatched without error. */
  function Routes(route: Js -> Route, nodes: seq<Js>): (r: seq<Event>)
    ensures |r| == |nodes|
    ensures forall i :: 0 <= i < |nodes| ==> r[i] == Dispatched(route(nodes[i]))
  {
    if nodes == [] then [] else [Dispatched(route(nodes[0]))] + Routes(route, nodes[1..])
  }

  /**
   * The loop over a batch: one event per node dispatched without error, so
   * the trace is as long as the batch exactly when no node failed.
   */
  function Run<S>(step: (S, Js) -> Step<S>, route: Js -> Route, s: S, nodes: seq<Js>): (r: Outcome<S>)
    ensures |r.trace| <= |nodes|
    ensures r.error.None? <==> |r.trace| == |nodes|
    ensures Flushed !in r.trace
    decreases |nodes|
  {
    if nodes == [] then Outcome(s, [], None)
    else
      var st := step(s, nodes[0]);
      if st.error.Some? then Outcome(st.state, [], st.error)
      else
        var rest := Run(step, route, st.state, nodes[1..]);
        Outcome(rest.state, [Dispatched(route(nodes[0]))] + rest.trace, rest.error)
  }

  /** Dispatching one more node extends a batch that has not failed by that node's step. */
  lemma {:induction false} RunSnoc<S>(step: (S, Js) -> Step<S>, route: Js -> Route, s: S, nodes: seq<Js>, x: Js)
    requires Run(step, route, s, nodes).error.None?
    ensures var r := Run(step, route, s, nodes);
            var st := step(r.state, x);
            Run(step, route, s, nodes + [x]) ==
              if st.error.Some? then Outcome(st.state, r.trace, st.error)
              else Outcome(st.state, r.trace + [Dispatched(route(x))], None)
    decreases |nodes|
  {
    if nodes != [] {
      assert (nodes + [x])[0] == nodes[0];
      assert (nodes + [x])[1..] == nodes[1..] + [x];
      RunSnoc(step, route, step(s, nodes[0]).state, nodes[1..], x);
    }
  }

  /** Once a node fails, no later node is dispatched. */
  lemma {:induction false} RunStops<S>(step: (S, Js) -> Step<S>, route: Js -> Route, s: S, nodes: seq<Js>, later: seq<Js>)
    requires Run(step, route, s, nodes).error.Some?
    ensures Run(step, route, s, nodes + later) == Run(step, route, s, nodes)
    decreases |nodes|
  {
    assert nodes != [];
    assert (nodes + later)[0] == nodes[0];
    assert (nodes + later)[1..] == nodes[1..] + later;
    if step(s, nodes[0]).error.None? {
      RunStops(step, route, step(s, nodes[0]).state, nodes[1..], later);
    }
  }

  /** Cutting a sequence after its element `i`. */
  lemma Split<T>(xs: seq<T>, i: nat)
    requires i < |xs|
    ensures xs[..i + 1] == xs[..i] + [xs[i]]
    ensures xs[..i + 1] + xs[i + 1..] == xs
  {
  }

  /**
   * The loop of `_apply` after `i` nodes, carried over node `i`: a step that
   * throws ends the whole batch there, any other step extends the prefix.
   */
  lemma RunPrefix<S>(step: (S, Js) -> Step<S>, route: Js -> Route, s0: S, nodes: seq<Js>, i: nat, s: S, done: seq<Event>)
    requires i < |nodes|
    requires Run(step, route, s0, nodes[..i]) == Outcome(s, done, None)
    ensures step(s, nodes[i]).error.Some? ==>
              Run(step, route, s0, nodes) == Outcome(step(s, nodes[i]).state, done, step(s, nodes[i]).error)
    ensures step(s, nodes[i]).error.None? ==>
              Run(step, route, s0, nodes[..i + 1]) == Outcome(step(s, nodes[i]).state, done + [Dispatched(route(nodes[i]))], None)
  {
    Split(nodes, i);
    RunSnoc(step, route, s0, nodes[..i], nodes[i]);
    if step(s, nodes[i]).error.Some? {
      RunStops(step, route, s0, nodes[..i + 1], nodes[i + 1..]);
    }
  }

  /**
   * Every node is dispatched exactly once and in array order: the trace is
   * the route of each node of a prefix of the batch (the whole batch when no
   * node failed, a strict prefix otherwise, by the contract of `Run`).
   */
  lemma {:induction false} RunTrace<S>(step: (S, Js) -> Step<S>, route: Js -> Route, s: S, nodes: seq<Js>)
    ensures var r := Run(step, route, s, nodes);
            r.trace == Routes(route, nodes[..|r.trace|])
    decreases |nodes|
  {
    if nodes != [] {
      var st := step(s, nodes[0]);
      if st.error.None? {
        RunTrace(step, route, st.state, nodes[1..]);
        var rest := Run(step, route, st.state, nodes[1..]);
        assert nodes[..|rest.trace| + 1] == [nodes[0]] + nodes[1..][..|rest.trace|];
      }
    }
  }
}
