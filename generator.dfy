/** `Generator`: a step function producing `Option<ITEM>` over an immutable context and a
    mutable state, polled as a stream (`try_next`) and as an iterator (`next`). */
module Generators {
  import opened Wrappers
  import opened Completion
  import opened Polling
  import opened Computable
  import opened Generatable

  /** One step: `Ok(Some(item))`, `Ok(None)` for the end of the stream, or a signal. */
  type GenStep<!C, !S, I, R> = (C, S) -> (Completable<Option<I>, R>, S)

  /** One `try_next`: exactly one step, its result transposed. No cancellation check. */
  function TryNextOf<C, S, I, R>(step: GenStep<C, S, I, R>, context: C, state: S)
    : (Option<Completable<I, R>>, S)
  {
    var p := step(context, state);
    (Transpose(p.0), p.1)
  }

  function GeneratorTryNext<C, S, I, R>(step: GenStep<C, S, I, R>, context: C): TryNext<S, I, R> {
    s => TryNextOf(step, context, s)
  }

  /** What `next` makes of the step result it stops at: the end of the stream, an item,
      or the bare cancellation reason. It is the transposed step result with the
      cancellation unwrapped. The source has no arm for `Exhausted`. */
  function NextItem<I, R>(c: Completable<Option<I>, R>): (r: Option<Cancellable<I, R>>)
    requires !IsSuspended(c) && !IsExhausted(c)
    ensures Transpose(c) == match r
                            case None => None
                            case Some(Ok(x)) => Some(Ok(x))
                            case Some(Err(e)) => Some(Err(FromCancelled(e)))
  {
    if c.Ok? then (if c.value.None? then None else Some(Ok(c.value.value)))
    else Some(Err(c.error.reason))
  }

  class Generator<C, S, I, R> {
    const step: GenStep<C, S, I, R>
    const context: C
    var state: S

    /** `from_parts`; `into_parts` gives the two parts back. */
    constructor FromParts(step: GenStep<C, S, I, R>, context: C, state: S)
      ensures this.step == step
      ensures IntoParts() == (context, state) && Context() == context && State() == state
    {
      this.step := step;
      this.context := context;
      this.state := state;
    }

    function IntoParts(): (C, S)
      reads this
    {
      (context, state)
    }

    function Context(): C {
      context
    }

    function State(): S
      reads this
    {
      state
    }

    /** `try_next`: one step, transposed; only the state changes. */
    method TryNext() returns (r: Option<Completable<I, R>>)
      modifies this
      ensures (r, state) == TryNextOf(step, context, old(state))
      ensures r == Transpose(step(context, old(state)).0) && state == step(context, old(state)).1
    {
      var p := step(context, state);
      state := p.1;
      r := Transpose(p.0);
    }

    /** `Iterator::next`: run the step until it does not suspend and return what it
        settled on. The step must suspend finitely often (`k` times) and must not settle
        on `Exhausted`. */
    method Next(ghost k: nat) returns (r: Option<Cancellable<I, R>>)
      requires SuspendsThenSettles(WithContext(step, context), state, k)
      requires !IsExhausted(OutputAt(WithContext(step, context), state, k))
      modifies this
      ensures r == NextItem(OutputAt(WithContext(step, context), old(state), k))
      ensures state == Iterate(WithContext(step, context), old(state), k + 1)
    {
      ghost var s0 := state;
      ghost var i: nat := 0;
      while true
        invariant i <= k && state == Iterate(WithContext(step, context), s0, i)
        decreases k - i
      {
        var p := step(context, state);
        assert p.0 == OutputAt(WithContext(step, context), s0, i);
        state := p.1;
        assert state == Iterate(WithContext(step, context), s0, i + 1);
        if !IsSuspended(p.0) {
          return NextItem(p.0);
        }
        i := i + 1;
      }
    }
  }

  /** `try_next` walks through the same states as the step function, and its answers are
      the step results transposed. */
  lemma {:induction false} TryNextFollowsStep<C, S, I, R>(step: GenStep<C, S, I, R>, context: C, s: S, n: nat)
    ensures Iterate(GeneratorTryNext(step, context), s, n) == Iterate(WithContext(step, context), s, n)
    ensures OutputAt(GeneratorTryNext(step, context), s, n) == Transpose(OutputAt(WithContext(step, context), s, n))
  {
    if n > 0 {
      TryNextFollowsStep(step, context, s, n - 1);
    }
  }
}
