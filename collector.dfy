/** `Collector`: a computable that pulls one answer from a stream per poll, folds each
    item into an accumulator, and hands the accumulator out once the stream is finished. */
module Collectors {
  import opened Wrappers
  import opened Completion
  import opened Polling
  import opened Computable
  import opened Generatable

  /** A collection type that can start empty and take in one item at a time
      (`Default + Extend<ITEM>`). */
  datatype Accumulator<!A, !I> = Accumulator(empty: A, extend: (A, I) -> A)

  /** The collection built from `items`, in order. */
  function Fold<A, I>(acc: Accumulator<A, I>, items: seq<I>): A
    decreases |items|
  {
    if |items| == 0 then acc.empty else acc.extend(Fold(acc, items[..|items| - 1]), items[|items| - 1])
  }

  /** `Vec`: items are appended at the end. */
  function VecAccumulator<I>(): Accumulator<seq<I>, I> {
    Accumulator([], (a: seq<I>, x: I) => a + [x])
  }

  /** `HashSet`: items are inserted, duplicates collapse. */
  function SetAccumulator<I>(): Accumulator<set<I>, I> {
    Accumulator({}, (a: set<I>, x: I) => a + {x})
  }

  lemma {:induction false} FoldVec<I>(items: seq<I>)
    ensures Fold(VecAccumulator(), items) == items
    decreases |items|
  {
    if |items| > 0 {
      FoldVec(items[..|items| - 1]);
      assert items[..|items| - 1] + [items[|items| - 1]] == items;
    }
  }

  lemma {:induction false} FoldSet<I>(items: seq<I>)
    ensures Fold(SetAccumulator(), items) == set i | 0 <= i < |items| :: items[i]
    decreases |items|
  {
    if |items| > 0 {
      var n := |items| - 1;
      FoldSet(items[..n]);
      assert (set i | 0 <= i < |items| :: items[i]) == (set i | 0 <= i < n :: items[..n][i]) + {items[n]};
    }
  }

  /** One `try_compute` as a poll function over (stream state, accumulator slot). */
  function CollectorPoll<G, I, A, R>(tryNext: TryNext<G, I, R>, acc: Accumulator<A, I>, w: (G, Option<A>))
    : (Completable<A, R>, (G, Option<A>))
  {
    var pulled := tryNext(w.0);
    var g := pulled.1;
    match pulled.0
    case None =>
      if w.1.Some? then (Ok(w.1.value), (g, None)) else (Err(Exhausted), (g, None))
    case Some(Ok(item)) =>
      if w.1.Some? then (Err(Suspended), (g, Some(acc.extend(w.1.value, item)))) else (Err(Exhausted), (g, w.1))
    case Some(Err(Suspended)) => (Err(Suspended), (g, w.1))
    case Some(Err(Cancelled(c))) => (Err(Cancelled(c)), (g, w.1))
    case Some(Err(Exhausted)) => (Err(Exhausted), (g, w.1))
  }

  function Collecting<G, I, A, R>(tryNext: TryNext<G, I, R>, acc: Accumulator<A, I>)
    : Poll<(G, Option<A>), Completable<A, R>>
  {
    w => CollectorPoll(tryNext, acc, w)
  }

  class Collector<G, I, A, R> {
    const tryNext: TryNext<G, I, R>
    const acc: Accumulator<A, I>
    var generator: G
    var collector: Option<A>

    /** `new` and `From<DynGeneratable>`: the accumulator is present and empty. */
    constructor New(tryNext: TryNext<G, I, R>, generator: G, acc: Accumulator<A, I>)
      ensures this.tryNext == tryNext && this.acc == acc && this.generator == generator
      ensures collector == Some(acc.empty)
    {
      this.tryNext := tryNext;
      this.acc := acc;
      this.generator := generator;
      collector := Some(acc.empty);
    }

    /** `try_compute`: exactly one `try_next` of the stream per poll. */
    method TryCompute() returns (r: Completable<A, R>)
      modifies this
      ensures (r, (generator, collector)) == CollectorPoll(tryNext, acc, (old(generator), old(collector)))
      ensures generator == tryNext(old(generator)).1
      // the stream is finished: hand the accumulator out, once
      ensures tryNext(old(generator)).0.None? ==>
        collector == None && r == if old(collector).Some? then Ok(old(collector).value) else Err(Exhausted)
      // an item: append it and suspend, or report that the result was already handed out
      ensures tryNext(old(generator)).0.Some? && tryNext(old(generator)).0.value.Ok? ==>
        if old(collector).Some?
        then r == Err(Suspended) && collector == Some(acc.extend(old(collector).value, tryNext(old(generator)).0.value.value))
        else r == Err(Exhausted) && collector == None
      // a signal of the stream is passed on unchanged and the accumulator is untouched
      ensures tryNext(old(generator)).0.Some? && tryNext(old(generator)).0.value.Err? ==>
        r == Err(tryNext(old(generator)).0.value.error) && collector == old(collector)
    {
      var pulled := tryNext(generator);
      generator := pulled.1;
      match pulled.0
      case None =>
        if collector.Some? {
          r := Ok(collector.value);
          collector := None;
        } else {
          r := Err(Exhausted);
        }
      case Some(Ok(item)) =>
        if collector.Some? {
          collector := Some(acc.extend(collector.value, item));
          r := Err(Suspended);
        } else {
          r := Err(Exhausted);
        }
      case Some(Err(Suspended)) => r := Err(Suspended);
      case Some(Err(Cancelled(c))) => r := Err(Cancelled(c));
      case Some(Err(Exhausted)) => r := Err(Exhausted);
    }
  }

  /** While the stream follows its script, the collector's accumulator holds the items
      pulled so far. */
  lemma {:induction false} CollectorFollowsScript<G, I, A, R>(
    tryNext: TryNext<G, I, R>, acc: Accumulator<A, I>, g: G, script: seq<Option<Completable<I, R>>>, i: nat)
    requires Emits(tryNext, g, script)
    requires i <= |script|
    ensures Iterate(Collecting(tryNext, acc), (g, Some(acc.empty)), i)
         == (Iterate(tryNext, g, i), Some(Fold(acc, Items(script[..i]))))
  {
    if i > 0 {
      CollectorFollowsScript(tryNext, acc, g, script, i - 1);
      assert OutputAt(tryNext, g, i - 1) == script[i - 1];
      assert script[..i][..i - 1] == script[..i - 1];
    }
  }

  /** A stream that answers `script` and then finishes: every one of those polls returns
      `Suspended` (one per item, one per suspension), the next poll returns the items
      folded in order, and the accumulator is then gone. */
  lemma CollectsScript<G, I, A, R>(
    tryNext: TryNext<G, I, R>, acc: Accumulator<A, I>, g: G, script: seq<Option<Completable<I, R>>>)
    requires Emits(tryNext, g, script)
    ensures SuspendsThenSettles(Collecting(tryNext, acc), (g, Some(acc.empty)), |script|)
    ensures OutputAt(Collecting(tryNext, acc), (g, Some(acc.empty)), |script|) == Ok(Fold(acc, Items(script)))
    ensures Iterate(Collecting(tryNext, acc), (g, Some(acc.empty)), |script| + 1).1 == None
  {
    forall i: nat | i < |script|
      ensures IsSuspended(OutputAt(Collecting(tryNext, acc), (g, Some(acc.empty)), i))
    {
      CollectorFollowsScript(tryNext, acc, g, script, i);
      assert OutputAt(tryNext, g, i) == script[i];
    }
    CollectorFollowsScript(tryNext, acc, g, script, |script|);
    assert script[..|script|] == script;
  }

  /** Once the accumulator has been handed out, it never comes back: no later poll
      returns a value, whatever the stream answers. */
  lemma {:induction false} SpentCollectorNeverYields<G, I, A, R>(
    tryNext: TryNext<G, I, R>, acc: Accumulator<A, I>, g: G, n: nat)
    ensures Iterate(Collecting(tryNext, acc), (g, None), n).1 == None
    ensures !OutputAt(Collecting(tryNext, acc), (g, None), n).Ok?
  {
    if n > 0 {
      SpentCollectorNeverYields(tryNext, acc, g, n - 1);
    }
  }

  /** The `TestGenerator` of the tests: yields `items` one by one, then finishes. Its
      state is the index of the next item. */
  function TestStreamNext<R>(items: seq<int>, index: nat): (Option<Completable<int, R>>, nat) {
    if index < |items| then (Some(Ok(items[index])), index + 1) else (None, index)
  }

  function TestStream<R>(items: seq<int>): TryNext<nat, int, R> {
    index => TestStreamNext(items, index)
  }

  lemma {:induction false} TestStreamIterate<R>(items: seq<int>, i: nat)
    requires i <= |items|
    ensures Iterate(TestStream<R>(items), 0, i) == i
  {
    if i > 0 {
      TestStreamIterate<R>(items, i - 1);
    }
  }

  lemma TestStreamEmits<R>(items: seq<int>)
    ensures Emits(TestStream<R>(items), 0, ItemScript(items))
  {
    forall i | 0 <= i <= |items| ensures Iterate(TestStream<R>(items), 0, i) == i {
      TestStreamIterate<R>(items, i);
    }
  }

  /** Over a stream of `items` with no suspensions a `Vec` collector suspends once per
      item and then returns the items in order; an empty stream settles at once on `[]`. */
  lemma CollectsItemsInOrder<R>(items: seq<int>)
    ensures SuspendsThenSettles(Collecting(TestStream<R>(items), VecAccumulator()), (0, Some([])), |items|)
    ensures OutputAt(Collecting(TestStream<R>(items), VecAccumulator()), (0, Some([])), |items|) == Ok(items)
  {
    TestStreamEmits<R>(items);
    CollectsScript(TestStream<R>(items), VecAccumulator(), 0, ItemScript(items));
    ItemsOfItemScript<int, R>(items);
    FoldVec(items);
  }

  /** The tests over `[1, 2, 3]` and over the empty stream. */
  lemma CollectorBasicTests<R>()
    ensures forall i: nat :: i < 3 ==>
      OutputAt(Collecting(TestStream<R>([1, 2, 3]), VecAccumulator()), (0, Some([])), i) == Err(Suspended)
    ensures OutputAt(Collecting(TestStream<R>([1, 2, 3]), VecAccumulator()), (0, Some([])), 3) == Ok([1, 2, 3])
    ensures OutputAt(Collecting(TestStream<R>([]), VecAccumulator()), (0, Some([])), 0) == Ok([])
  {
    CollectsItemsInOrder<R>([1, 2, 3]);
    CollectsItemsInOrder<R>([]);
  }

  /** After the collection of `[1]` has been handed out, the next poll is `Exhausted`. */
  lemma CollectorExhaustedAfterCompletion<R>()
    ensures OutputAt(Collecting(TestStream<R>([1]), VecAccumulator()), (0, Some([])), 1) == Ok([1])
    ensures OutputAt(Collecting(TestStream<R>([1]), VecAccumulator()), (0, Some([])), 2) == Err(Exhausted)
  {
    CollectsItemsInOrder<R>([1]);
    TestStreamEmits<R>([1]);
    CollectsScript(TestStream<R>([1]), VecAccumulator(), 0, ItemScript([1]));
    TestStreamIterate<R>([1], 1);
  }

  /** Helper for the next lemma: the distinct values of `[1, 2, 2, 3]`. */
  lemma DistinctOfOneTwoTwoThree()
    ensures (set i | 0 <= i < 4 :: [1, 2, 2, 3][i]) == {1, 2, 3}
    ensures |{1, 2, 3}| == 3
  {
    var items := [1, 2, 2, 3];
    var s := set i | 0 <= i < 4 :: items[i];
    assert items[0] in s && items[1] in s && items[3] in s;
    forall x | x in s ensures x in {1, 2, 3} {
      var i :| 0 <= i < 4 && items[i] == x;
    }
    assert {1, 2, 3} == {1} + {2} + {3};
  }

  /** With a `HashSet` accumulator the items `[1, 2, 2, 3]` give a set of three elements. */
  lemma CollectorSetCollapsesDuplicates<R>()
    ensures OutputAt(Collecting(TestStream<R>([1, 2, 2, 3]), SetAccumulator()), (0, Some({})), 4) == Ok({1, 2, 3})
    ensures |{1, 2, 3}| == 3
  {
    var items := [1, 2, 2, 3];
    TestStreamEmits<R>(items);
    CollectsScript(TestStream<R>(items), SetAccumulator(), 0, ItemScript(items));
    ItemsOfItemScript<int, R>(items);
    FoldSet(items);
    DistinctOfOneTwoTwoThree();
  }

  /** A suspension at the front of a script adds no item. */
  lemma {:induction false} ItemsSkipSuspension<I, R>(script: seq<Option<Completable<I, R>>>)
    ensures Items([Some(Err(Suspended))] + script) == Items(script)
    decreases |script|
  {
    if |script| > 0 {
      var n := |script| - 1;
      var t := [Some(Err(Suspended))] + script;
      assert t[..n + 1] == [Some(Err(Suspended))] + script[..n];
      assert t[n + 1] == script[n];
      ItemsSkipSuspension(script[..n]);
      var last := script[n];
      assert Items(t) == if last.Some? && last.value.Ok? then Items(t[..n + 1]) + [last.value.value] else Items(t[..n + 1]);
      assert Items(script) == if last.Some? && last.value.Ok? then Items(script[..n]) + [last.value.value] else Items(script[..n]);
    }
  }

  /** The `SuspendingGenerator` of the tests: suspends on its first call if it has items
      left, then yields them one by one. State: (index, first call pending). */
  function SuspendingStreamNext<R>(items: seq<int>, w: (nat, bool)): (Option<Completable<int, R>>, (nat, bool)) {
    if w.0 < |items| then
      if w.1 then (Some(Err(Suspended)), (w.0, false)) else (Some(Ok(items[w.0])), (w.0 + 1, w.1))
    else (None, w)
  }

  function SuspendingStream<R>(items: seq<int>): TryNext<(nat, bool), int, R> {
    w => SuspendingStreamNext(items, w)
  }

  lemma {:induction false} SuspendingStreamIterate<R>(items: seq<int>, i: nat)
    requires |items| > 0 && 0 < i <= |items| + 1
    ensures Iterate(SuspendingStream<R>(items), (0, true), i) == (i - 1, false)
  {
    if i > 1 {
      SuspendingStreamIterate<R>(items, i - 1);
    }
  }

  /** A stream that suspends once and then yields `[1, 2, 3]`: four `Suspended` polls,
      then the collection `[1, 2, 3]`. */
  lemma CollectorWithSuspensions<R>()
    ensures SuspendsThenSettles(Collecting(SuspendingStream<R>([1, 2, 3]), VecAccumulator()), ((0, true), Some([])), 4)
    ensures OutputAt(Collecting(SuspendingStream<R>([1, 2, 3]), VecAccumulator()), ((0, true), Some([])), 4) == Ok([1, 2, 3])
  {
    var items := [1, 2, 3];
    var script := [Some(Err(Suspended))] + ItemScript<int, R>(items);
    forall i | 1 <= i <= 4 ensures Iterate(SuspendingStream<R>(items), (0, true), i) == (i - 1, false) {
      SuspendingStreamIterate<R>(items, i);
    }
    assert Emits(SuspendingStream<R>(items), (0, true), script);
    CollectsScript(SuspendingStream<R>(items), VecAccumulator(), (0, true), script);
    ItemsSkipSuspension(ItemScript<int, R>(items));
    ItemsOfItemScript<int, R>(items);
    FoldVec(items);
  }

  /** The `CancellingGenerator` of the tests: its first answer is a cancellation, which
      the collector passes on unchanged. */
  function CancellingStreamNext<R>(reason: R, cancelled: bool): (Option<Completable<int, R>>, bool) {
    if !cancelled then (Some(Err(Cancelled(reason))), true) else (None, cancelled)
  }

  lemma CollectorPassesCancellation<R>(reason: R)
    ensures OutputAt(Collecting(c => CancellingStreamNext(reason, c), VecAccumulator()), (false, Some([])), 0)
         == Err(Cancelled(reason))
  {
  }
}
