/**
 Runs of a state machine and the three inductions over them that the components
 share: an invariant, a property that persists, and a property with an origin.
 */
module Runs {

  /** The states a run visits, one event at a time. */
  ghost predicate Run<S(!new), E(!new)>(init: S, step: (S, E, S) -> bool, states: seq<S>, events: seq<E>) {
    && |states| == |events| + 1 && states[0] == init
    && forall i {:trigger events[i]} :: 0 <= i < |events| ==> step(states[i], events[i], states[i + 1])
  }

  /** A run goes on with one more step. */
  lemma Longer<S(!new), E(!new)>(init: S, step: (S, E, S) -> bool, states: seq<S>, events: seq<E>, e: E, next: S)
    requires Run(init, step, states, events) && step(states[|events|], e, next)
    ensures Run(init, step, states + [next], events + [e])
  {
    var more, all := events + [e], states + [next];
    forall i | 0 <= i < |more| ensures step(all[i], more[i], all[i + 1]) {
      if i < |events| {
        assert step(states[i], events[i], states[i + 1]);
      }
    }
  }

  /** Some run leads from one state to the other. */
  ghost predicate Reaches<S(!new), E(!new)>(init: S, step: (S, E, S) -> bool, final: S) {
    exists states: seq<S>, events: seq<E> :: Run(init, step, states, events) && states[|events|] == final
  }

  lemma ReachesItself<S(!new), E(!new)>(init: S, step: (S, E, S) -> bool)
    ensures Reaches(init, step, init)
  {
    var none: seq<E> := [];
    assert Run(init, step, [init], none) && [init][|none|] == init;
  }

  lemma ReachesNext<S(!new), E(!new)>(init: S, step: (S, E, S) -> bool, mid: S, e: E, next: S)
    requires Reaches(init, step, mid) && step(mid, e, next)
    ensures Reaches(init, step, next)
  {
    var states: seq<S>, events: seq<E> :| Run(init, step, states, events) && states[|events|] == mid;
    Longer(init, step, states, events, e, next);
    assert (states + [next])[|events + [e]|] == next;
  }

  lemma {:induction false} Invariant<S(!new), E(!new)>(
    init: S, step: (S, E, S) -> bool, inv: S -> bool, states: seq<S>, events: seq<E>, i: nat)
    requires Run(init, step, states, events) && i < |states|
    requires inv(init)
    requires forall s, e, t :: inv(s) && step(s, e, t) ==> inv(t)
    ensures inv(states[i])
  {
    if i > 0 {
      Invariant(init, step, inv, states, events, i - 1);
      assert step(states[i - 1], events[i - 1], states[i]);
    }
  }

  /** What holds at one moment, and is kept by every step between good states,
      holds at every later moment. */
  lemma {:induction false} Persists<S(!new), E(!new)>(
    init: S, step: (S, E, S) -> bool, inv: S -> bool, kept: S -> bool, states: seq<S>, events: seq<E>, i: nat, j: nat)
    requires Run(init, step, states, events) && i <= j < |states|
    requires inv(init) && forall s, e, t :: inv(s) && step(s, e, t) ==> inv(t)
    requires forall s, e, t :: inv(s) && kept(s) && step(s, e, t) ==> kept(t)
    requires kept(states[i])
    ensures kept(states[j])
    decreases j
  {
    if i < j {
      Persists(init, step, inv, kept, states, events, i, j - 1);
      Invariant(init, step, inv, states, events, j - 1);
      assert step(states[j - 1], events[j - 1], states[j]);
    }
  }

  /** Step i granted something that stayed backed up to moment j. */
  ghost predicate Backed<S(!new)>(granted: (S, S) -> bool, backed: S -> bool, states: seq<S>, i: nat, j: nat) {
    && i < j < |states| && granted(states[i], states[i + 1])
    && forall k :: i < k <= j ==> backed(states[k])
  }

  /** A property that only a grant can start, and that ends when its backing ends,
      has been backed ever since some grant. */
  lemma {:induction false} Origin<S(!new), E(!new)>(
    init: S, step: (S, E, S) -> bool, holds: S -> bool, granted: (S, S) -> bool, backed: S -> bool,
    states: seq<S>, events: seq<E>, j: nat)
    returns (i: nat)
    requires Run(init, step, states, events) && j < |states|
    requires !holds(init) && holds(states[j])
    requires forall s, e, t :: step(s, e, t) && holds(t) ==> backed(t) && (holds(s) || granted(s, t))
    ensures Backed(granted, backed, states, i, j)
  {
    var s, t := states[j - 1], states[j];
    assert step(s, events[j - 1], t);
    if holds(s) {
      i := Origin(init, step, holds, granted, backed, states, events, j - 1);
    } else {
      i := j - 1;
    }
  }
}
