/** `Computation`: a step function over an immutable context and a mutable state,
    polled as a computable. The ambient cancellation check of the source is an explicit
    input here: `cancel` for one poll, `cancelAt(i)` for the poll numbered `i` of a
    driving loop. */
module Computations {
  import opened Wrappers
  import opened Completion
  import opened Polling
  import opened Computable

  /** One step of the user's algorithm: its result and the updated state. */
  type Step<!C, !S, O, R> = (C, S) -> (Completable<O, R>, S)

  /** One `try_compute`: a pending cancellation ends the poll before the step runs and
      leaves the state alone; otherwise the step runs and its result is returned as is. */
  function PollComputation<C, S, O, R>(step: Step<C, S, O, R>, context: C, cancel: Option<R>, state: S)
    : (Completable<O, R>, S)
  {
    if cancel.Some? then (Err(FromCancelled(cancel.value)), state) else step(context, state)
  }

  /** The poll numbered `w.1` of a driving loop, over (state, number of polls made). */
  function PollCounted<C, S, O, R>(step: Step<C, S, O, R>, context: C, cancelAt: nat -> Option<R>, w: (S, nat))
    : (Completable<O, R>, (S, nat))
  {
    var p := PollComputation(step, context, cancelAt(w.1), w.0);
    (p.0, (p.1, w.1 + 1))
  }

  function ComputationPoll<C, S, O, R>(step: Step<C, S, O, R>, context: C, cancelAt: nat -> Option<R>)
    : Poll<(S, nat), Completable<O, R>>
  {
    w => PollCounted(step, context, cancelAt, w)
  }

  function NoCancellation<R>(): nat -> Option<R> {
    _ => None
  }

  class Computation<C, S, O, R> {
    const step: Step<C, S, O, R>
    const context: C
    var state: S

    /** `from_parts`; `into_parts` gives the two parts back. */
    constructor FromParts(step: Step<C, S, O, R>, context: C, state: S)
      ensures this.step == step
      ensures IntoParts() == (context, state) && Context() == context && State() == state
    {
      this.step := step;
      this.context := context;
      this.state := state;
    }

    function IntoParts(): (C, S)
      reads this
    {
      (context, state)
    }

    function Context(): C {
      context
    }

    function State(): S
      reads this
    {
      state
    }

    /** A write through `state_mut`: the new state is what `state()` reads next, and the
        context is untouched. */
    method SetState(s: S)
      modifies this
      ensures State() == s && IntoParts() == (context, s)
    {
      state := s;
    }

    /** `try_compute`. There is no completion flag: every poll that is not cancelled runs
        the step again. */
    method TryCompute(cancel: Option<R>) returns (r: Completable<O, R>)
      modifies this
      ensures (r, state) == PollComputation(step, context, cancel, old(state))
      ensures cancel.Some? ==> r == Err(Cancelled(cancel.value)) && state == old(state)
      ensures cancel.None? ==> (r, state) == step(context, old(state))
    {
      if cancel.Some? {
        return Err(FromCancelled(cancel.value));
      }
      var p := step(context, state);
      state := p.1;
      r := p.0;
    }

    /** `compute`, the computable default method run on this computation's polls. */
    method Compute(cancelAt: nat -> Option<R>, ghost k: nat) returns (r: Cancellable<O, R>)
      requires SuspendsThenSettles(ComputationPoll(step, context, cancelAt), (state, 0), k)
      requires !IsExhausted(OutputAt(ComputationPoll(step, context, cancelAt), (state, 0), k))
      modifies this
      ensures r == IntoCancellable(OutputAt(ComputationPoll(step, context, cancelAt), (old(state), 0), k))
      ensures state == Iterate(ComputationPoll(step, context, cancelAt), (old(state), 0), k + 1).0
    {
      var w;
      r, w := Computable.Compute(ComputationPoll(step, context, cancelAt), (state, 0), k);
      state := w.0;
    }
  }

  /** Without cancellation, the poll counter moves in step with the state: after `n`
      polls the state is the step function applied `n` times. */
  lemma {:induction false} UncancelledFollowsStep<C, S, O, R>(step: Step<C, S, O, R>, context: C, s: S, n: nat)
    ensures Iterate(ComputationPoll(step, context, NoCancellation<R>()), (s, 0), n)
         == (Iterate(WithContext(step, context), s, n), n)
    ensures OutputAt(ComputationPoll(step, context, NoCancellation<R>()), (s, 0), n)
         == OutputAt(WithContext(step, context), s, n)
  {
    if n > 0 {
      UncancelledFollowsStep(step, context, s, n - 1);
    }
  }

  /** A step that always suspends yields `Suspended` on every poll, forever. */
  lemma NeverCompletes<C, S, O, R>(step: Step<C, S, O, R>, context: C, s: S, n: nat)
    requires forall st: S :: IsSuspended(step(context, st).0)
    ensures IsSuspended(OutputAt(ComputationPoll(step, context, NoCancellation<R>()), (s, 0), n))
  {
    UncancelledFollowsStep(step, context, s, n);
  }

  /** The `SimpleStep` of the tests: count the poll, suspend below 3, then report the
      context and the count (the source formats the two into a string). */
  function SimpleStep<R>(context: int, state: nat): (Completable<(int, nat), R>, nat) {
    var s := state + 1;
    (if s < 3 then Err(Suspended) else Ok((context, s)), s)
  }

  function SimplePolls<R>(context: int): Poll<(nat, nat), Completable<(int, nat), R>> {
    ComputationPoll((c, s) => SimpleStep<R>(c, s), context, NoCancellation())
  }

  lemma {:induction false} SimpleStepCountsPolls<R>(context: int, n: nat)
    ensures Iterate(SimplePolls<R>(context), (0, 0), n) == (n, n)
  {
    if n > 0 {
      SimpleStepCountsPolls<R>(context, n - 1);
    }
  }

  /** Suspended, Suspended, then the value; after each poll the state is the number of
      polls made; a fourth poll runs the step again rather than report `Exhausted`. */
  lemma SimpleStepPolls<R>(context: int)
    ensures OutputAt(SimplePolls<R>(context), (0, 0), 0) == Err(Suspended)
    ensures OutputAt(SimplePolls<R>(context), (0, 0), 1) == Err(Suspended)
    ensures OutputAt(SimplePolls<R>(context), (0, 0), 2) == Ok((context, 3))
    ensures OutputAt(SimplePolls<R>(context), (0, 0), 3) == Ok((context, 4))
    ensures forall n: nat :: n <= 4 ==> Iterate(SimplePolls<R>(context), (0, 0), n).0 == n
    ensures SuspendsThenSettles(SimplePolls<R>(context), (0, 0), 2)
  {
    forall n: nat | n <= 4 ensures Iterate(SimplePolls<R>(context), (0, 0), n) == (n, n) {
      SimpleStepCountsPolls<R>(context, n);
    }
  }
}
