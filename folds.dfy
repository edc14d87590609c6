/** Running a step over a sequence of inputs, collecting the events each
    step emits. Every loop of the client that handles inputs one after the
    other (records, batches, buffered items, polled threads and items) is an
    instance of this fold. */
module Folds {

  /** A state, with the events emitted so far in emission order. */
  datatype Run<S, E> = Run(state: S, events: seq<E>)

  /** Continue a run with one more input. */
  function Next<S, X, E>(step: (S, X) -> Run<S, E>, r: Run<S, E>, x: X): (n: Run<S, E>)
  {
    var n := step(r.state, x);
    Run(n.state, r.events + n.events)
  }

  /** The inputs handled in order, each seeing the state its predecessors left. */
  function Fold<S, X, E>(step: (S, X) -> Run<S, E>, r: Run<S, E>, xs: seq<X>): (f: Run<S, E>)
    decreases |xs|
  {
    if xs == [] then r else Next(step, Fold(step, r, xs[..|xs| - 1]), xs[|xs| - 1])
  }

  /** Handling `a + b` is handling `a` and then `b`. */
  lemma {:induction false} FoldAppend<S, X, E>(step: (S, X) -> Run<S, E>, r: Run<S, E>, a: seq<X>, b: seq<X>)
    ensures Fold(step, r, a + b) == Fold(step, Fold(step, r, a), b)
    decreases |b|
  {
    if b == [] {
      assert a + b == a;
    } else {
      var ab := a + b;
      assert ab[..|ab| - 1] == a + b[..|b| - 1];
      assert ab[|ab| - 1] == b[|b| - 1];
      FoldAppend(step, r, a, b[..|b| - 1]);
    }
  }

  /** Folding over one more input is one more step. */
  lemma FoldSnoc<S, X, E>(step: (S, X) -> Run<S, E>, r: Run<S, E>, xs: seq<X>, x: X)
    ensures Fold(step, r, xs + [x]) == Next(step, Fold(step, r, xs), x)
  {
    assert (xs + [x])[..|xs|] == xs;
  }

  /** The fold over the first `i + 1` inputs is one step after the fold
      over the first `i`. */
  lemma FoldPrefix<S, X, E>(step: (S, X) -> Run<S, E>, r: Run<S, E>, xs: seq<X>, i: int)
    requires 0 <= i < |xs|
    ensures Fold(step, r, xs[..i + 1]) == Next(step, Fold(step, r, xs[..i]), xs[i])
  {
    assert xs[..i + 1] == xs[..i] + [xs[i]];
    FoldSnoc(step, r, xs[..i], xs[i]);
  }

  /** Events already emitted stay in front: a fold only appends. */
  lemma {:induction false} FoldKeepsEvents<S, X, E>(step: (S, X) -> Run<S, E>, r: Run<S, E>, xs: seq<X>)
    ensures |Fold(step, r, xs).events| >= |r.events|
    ensures Fold(step, r, xs).events[..|r.events|] == r.events
    decreases |xs|
  {
    if xs != [] {
      FoldKeepsEvents(step, r, xs[..|xs| - 1]);
    }
  }

  /** The events of a fold do not depend on those emitted before it: they
      are appended after them. */
  lemma {:induction false} FoldEventsShift<S, X, E>(step: (S, X) -> Run<S, E>, s: S, pre: seq<E>, xs: seq<X>)
    ensures Fold(step, Run(s, pre), xs) ==
            Run(Fold(step, Run(s, []), xs).state, pre + Fold(step, Run(s, []), xs).events)
    decreases |xs|
  {
    if xs == [] {
      assert pre + [] == pre;
    } else {
      FoldEventsShift(step, s, pre, xs[..|xs| - 1]);
      var prev := Fold(step, Run(s, []), xs[..|xs| - 1]);
      var n := step(prev.state, xs[|xs| - 1]);
      assert pre + prev.events + n.events == pre + (prev.events + n.events);
    }
  }
}
