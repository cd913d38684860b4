/** `Stateful`, `Algorithm` and `GenAlgorithm`: building a computation or generator from
    its context and initial state, running a computation to completion in one call, and
    turning a generator into a collecting computable. The `Into` conversions of the
    source are the identity here. */
module Algorithm {
  import opened Wrappers
  import opened Completion
  import opened Polling
  import opened Computable
  import opened Generatable
  import opened Computations
  import opened Generators
  import opened Collectors
  import opened Dyn

  /** `Stateful::configure` for a computation: the same as `from_parts`. */
  method ConfigureComputation<C, S, O, R>(step: Step<C, S, O, R>, context: C, initialState: S)
    returns (x: Computation<C, S, O, R>)
    ensures fresh(x) && x.step == step && x.IntoParts() == (context, initialState)
  {
    x := new Computation.FromParts(step, context, initialState);
  }

  /** `Stateful::configure` for a generator. */
  method ConfigureGenerator<C, S, I, R>(step: GenStep<C, S, I, R>, context: C, initialState: S)
    returns (x: Generator<C, S, I, R>)
    ensures fresh(x) && x.step == step && x.IntoParts() == (context, initialState)
  {
    x := new Generator.FromParts(step, context, initialState);
  }

  /** `Algorithm::run`: `from_parts(context, initialState).compute()`. */
  method Run<C, S, O, R>(step: Step<C, S, O, R>, context: C, initialState: S, cancelAt: nat -> Option<R>, ghost k: nat)
    returns (r: Cancellable<O, R>)
    requires SuspendsThenSettles(ComputationPoll(step, context, cancelAt), (initialState, 0), k)
    requires !IsExhausted(OutputAt(ComputationPoll(step, context, cancelAt), (initialState, 0), k))
    ensures r == IntoCancellable(OutputAt(ComputationPoll(step, context, cancelAt), (initialState, 0), k))
  {
    var x := new Computation.FromParts(step, context, initialState);
    r := x.Compute(cancelAt, k);
  }

  /** `GenAlgorithm::computation`: a collector over the boxed generator, its state as it
      is now, with an empty accumulator. */
  method GenComputation<C, S, I, A, R>(g: Generator<C, S, I, R>, acc: Accumulator<A, I>)
    returns (col: Collector<Boxed<S>, I, A, R>)
    ensures fresh(col)
    ensures col.tryNext == BoxedPoll(GeneratorTryNext(g.step, g.context)) && col.acc == acc
    ensures col.generator == Boxed(g.state) && col.collector == Some(acc.empty)
  {
    col := new Collector.New(BoxedPoll(GeneratorTryNext(g.step, g.context)), Boxed(g.state), acc);
  }

  /** The collecting computable of a generator follows the collector rules: a generator
      whose `try_next` answers `script` and then finishes gives one `Suspended` per
      answer and then the items folded in order. */
  lemma GenComputationCollects<C, S, I, A, R>(
    step: GenStep<C, S, I, R>, context: C, s: S, acc: Accumulator<A, I>, script: seq<Option<Completable<I, R>>>)
    requires Emits(GeneratorTryNext(step, context), s, script)
    ensures SuspendsThenSettles(Collecting(BoxedPoll(GeneratorTryNext(step, context)), acc), (Boxed(s), Some(acc.empty)), |script|)
    ensures OutputAt(Collecting(BoxedPoll(GeneratorTryNext(step, context)), acc), (Boxed(s), Some(acc.empty)), |script|)
         == Ok(Fold(acc, Items(script)))
  {
    var t := GeneratorTryNext(step, context);
    forall i: nat | i <= |script| ensures OutputAt(BoxedPoll(t), Boxed(s), i) == OutputAt(t, s, i) {
      BoxedForwards(t, s, i);
    }
    assert Emits(BoxedPoll(t), Boxed(s), script);
    CollectsScript(BoxedPoll(t), acc, Boxed(s), script);
  }
}
