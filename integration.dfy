/** The end-to-end scenarios of the crate: a summing computation, a range generator,
    their boxed and collected forms, and a memoised computation. */
module Integration {
  import opened Wrappers
  import opened Completion
  import opened Polling
  import opened Computable
  import opened Generatable
  import opened Computations
  import opened Generators
  import opened Collectors
  import opened Dyn
  import opened Algorithm

  function Sum(xs: seq<int>): int
    decreases |xs|
  {
    if |xs| == 0 then 0 else Sum(xs[..|xs| - 1]) + xs[|xs| - 1]
  }

  /** `SumComputationStep`: suspend once per element of the context, counting in the
      state, then return the sum of the context. */
  function SumStep<R>(context: seq<int>, state: int): (Completable<int, R>, int) {
    if state < |context| then (Err(Suspended), state + 1) else (Ok(Sum(context)), state)
  }

  function SumStepFn<R>(): Step<seq<int>, int, int, R> {
    (c, s) => SumStep<R>(c, s)
  }

  function SumPolls<R>(context: seq<int>): Poll<(int, nat), Completable<int, R>> {
    ComputationPoll(SumStepFn<R>(), context, NoCancellation())
  }

  /** One poll of the summing computation: suspension while the count is short of the
      context's length, the sum once it is not. */
  lemma SumPoll<R>(context: seq<int>, i: nat)
    ensures i < |context| ==> SumPolls<R>(context)((i, i)) == (Err(Suspended), (i + 1, i + 1))
    ensures i >= |context| ==> SumPolls<R>(context)((i, i)).0 == Ok(Sum(context))
  {
  }

  lemma {:induction false} SumStepCounts<R>(context: seq<int>, i: nat)
    requires i <= |context|
    ensures Iterate(SumPolls<R>(context), (0, 0), i) == (i, i)
  {
    if i > 0 {
      SumStepCounts<R>(context, i - 1);
      SumPoll<R>(context, i - 1);
    }
  }

  /** From state 0, the summing computation suspends once per element and then returns
      the sum. */
  lemma SumSettles<R>(context: seq<int>)
    ensures SuspendsThenSettles(SumPolls<R>(context), (0, 0), |context|)
    ensures OutputAt(SumPolls<R>(context), (0, 0), |context|) == Ok(Sum(context))
  {
    forall i: nat | i <= |context| ensures Iterate(SumPolls<R>(context), (0, 0), i) == (i, i) {
      SumStepCounts<R>(context, i);
      SumPoll<R>(context, i);
    }
  }

  /** Over `[1, 2, 3]` (boxed as a `DynComputable`): three `Suspended` polls, then 6. */
  lemma SumOfOneTwoThree<R>()
    ensures forall i: nat :: i < 3 ==> OutputAt(BoxedPoll(SumPolls<R>([1, 2, 3])), Boxed((0, 0)), i) == Err(Suspended)
    ensures OutputAt(BoxedPoll(SumPolls<R>([1, 2, 3])), Boxed((0, 0)), 3) == Ok(6)
  {
    SumSettles<R>([1, 2, 3]);
    assert [1, 2, 3][..2] == [1, 2] && [1, 2][..1] == [1] && [1][..0] == [];
    forall i: nat | i <= 3
      ensures OutputAt(BoxedPoll(SumPolls<R>([1, 2, 3])), Boxed((0, 0)), i) == OutputAt(SumPolls<R>([1, 2, 3]), (0, 0), i)
    {
      BoxedForwards(SumPolls<R>([1, 2, 3]), (0, 0), i);
    }
  }

  /** `run` of the summing computation over `[5, 10, 15]` from 0 gives 30. */
  method RunSumExample<R>() returns (r: Cancellable<int, R>)
    ensures r == Ok(30)
  {
    SumSettles<R>([5, 10, 15]);
    assert [5, 10, 15][..2] == [5, 10] && [5, 10][..1] == [5] && [5][..0] == [];
    r := Run(SumStepFn<R>(), [5, 10, 15], 0, NoCancellation(), 3);
  }

  /** `ComputableResult` over the summing computation on `[1, 2]`: two suspensions, then
      3; the following poll returns the same 3 without polling the computation again. */
  lemma MemoisedSum<R>()
    ensures OutputAt(Cached(SumPolls<R>([1, 2])), ((0, 0), None), 2) == Ok(3)
    ensures OutputAt(Cached(SumPolls<R>([1, 2])), ((0, 0), None), 3) == Ok(3)
    ensures Iterate(Cached(SumPolls<R>([1, 2])), ((0, 0), None), 4).0 == Iterate(SumPolls<R>([1, 2]), (0, 0), 3)
  {
    var p := SumPolls<R>([1, 2]);
    SumSettles<R>([1, 2]);
    assert [1, 2][..1] == [1] && [1][..0] == [];
    CachedMirrorsInner(p, (0, 0), 2);
    CachedAfterFirstValue(p, (0, 0), 2, 3);
    CachedAfterFirstValue(p, (0, 0), 2, 4);
  }

  /** `RangeGeneratorStep`: count up in the state and yield the count while it does not
      exceed the context, then report the end of the stream. */
  function RangeStep<R>(context: int, state: int): (Completable<Option<int>, R>, int) {
    var s := state + 1;
    (if s <= context then Ok(Some(s)) else Ok(None), s)
  }

  function RangeStepFn<R>(): GenStep<int, int, int, R> {
    (c, s) => RangeStep<R>(c, s)
  }

  function UpTo(n: nat): (r: seq<int>)
    ensures |r| == n && forall i :: 0 <= i < n ==> r[i] == i + 1
  {
    seq(n, i => i + 1)
  }

  lemma {:induction false} RangeIterate<R>(n: nat, i: nat)
    ensures Iterate(GeneratorTryNext(RangeStepFn<R>(), n), 0, i) == i
  {
    if i > 0 {
      RangeIterate<R>(n, i - 1);
    }
  }

  /** The range generator with context `n`, from state 0, yields 1, ..., n and then
      reports the end of the stream. */
  lemma RangeEmits<R>(n: nat)
    ensures Emits(GeneratorTryNext(RangeStepFn<R>(), n), 0, ItemScript(UpTo(n)))
  {
    forall i: nat | i <= n ensures Iterate(GeneratorTryNext(RangeStepFn<R>(), n), 0, i) == i {
      RangeIterate<R>(n, i);
    }
  }

  /** Context 5: the items 1 to 5, then `None`. */
  lemma RangeOfFive<R>()
    ensures forall i :: 0 <= i < 5 ==> OutputAt(GeneratorTryNext(RangeStepFn<R>(), 5), 0, i) == Some(Ok(i + 1))
    ensures OutputAt(GeneratorTryNext(RangeStepFn<R>(), 5), 0, 5) == None
  {
    RangeEmits<R>(5);
  }

  /** `computation::<Vec<_>>()` over the boxed range generator with context `n`: one
      suspension per item, then `[1, ..., n]`. */
  lemma CollectRange<R>(n: nat)
    ensures SuspendsThenSettles(Collecting(BoxedPoll(GeneratorTryNext(RangeStepFn<R>(), n)), VecAccumulator()), (Boxed(0), Some([])), n)
    ensures OutputAt(Collecting(BoxedPoll(GeneratorTryNext(RangeStepFn<R>(), n)), VecAccumulator()), (Boxed(0), Some([])), n)
         == Ok(UpTo(n))
  {
    var script := ItemScript<int, R>(UpTo(n));
    RangeEmits<R>(n);
    GenComputationCollects(RangeStepFn<R>(), n, 0, VecAccumulator(), script);
    ItemsOfItemScript<int, R>(UpTo(n));
    FoldVec(UpTo(n));
  }

  /** The `while let Some(item) = generator.try_next()` loop of the tests over a range
      generator with context `n`: it collects 1, ..., n. */
  method DrainRange<R>(n: nat) returns (items: seq<int>)
    ensures items == UpTo(n)
  {
    var g := new Generator.FromParts(RangeStepFn<R>(), n, 0);
    items := [];
    while true
      invariant g.step == RangeStepFn<R>() && g.context == n
      invariant g.state == |items| <= n && items == UpTo(|items|)
      decreases n - |items|
    {
      var next := g.TryNext();
      if next.None? {
        break;
      }
      items := items + [next.value.value];
    }
  }
}
