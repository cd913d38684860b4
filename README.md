# computation-process, modelled in Dafny

`computation-process` is a Rust crate for cooperative, resumable computations. An
algorithm is written as a step function over an immutable *context* and a mutable
*state*. Each call of the step function either finishes with a value, or returns one of
three signals:

- `Suspended`: poll again.
- `Cancelled(reason)`: an external cancellation was observed.
- `Exhausted`: the object was polled after it had already delivered its result.

The crate has two driving contracts:

- A `Computable` is polled with `try_compute` and settles on one value.
- A `Generatable` is polled with `try_next` and yields a stream of items. `None` ends the
  stream.

On top of these it defines:

- `Computation` and `Generator`, which glue a step function to the two contracts;
- `ComputableIdentity`, a computable that holds a finished value;
- `ComputableResult`, a memoising wrapper;
- `Collector`, which turns a stream into one collected value;
- the `Stateful`, `Algorithm` and `GenAlgorithm` conveniences (`configure`, `run`,
  `computation`);
- the boxed `Dyn*` forms of all of these.

How the model is built:

- **Poll functions.** Each computable or generatable is described by its poll function
  `S -> (X, S)` over its own state (module `Polling`). `Iterate` and `OutputAt` give the
  state after `n` polls and the answer of poll `i`.
- **Driving loops.** The trait default method `compute_completable` and `Generator`'s
  own `Iterator::next` are loops. Each is a `method` with a `while` loop, proved against
  these functions. The default method `compute` maps the result of
  `compute_completable`.
- **Classes.** The objects whose fields the source updates in place are classes:
  `Computation`, `Generator`, `ComputableIdentity`, `ComputableResult` and `Collector`.
  Each `TryCompute`/`TryNext` method states its result and new state as one application
  of the object's poll function. The properties that span many polls are lemmas about
  that function.
- **Cancellation.** The crate checks an ambient cancellation flag. Here that flag is an
  input:
  - `cancel: Option<R>` for a single poll;
  - `cancelAt: nat -> Option<R>`, indexed by poll number, for a driving loop.

  The cancellation reason is the type parameter `R`.
- **Termination.** A driving loop in the source terminates only if the computable
  eventually stops suspending. The model makes this a precondition: a ghost count `k`
  such that the first `k` polls suspend and poll `k` does not (`SuspendsThenSettles`).
  The loop is proved to stop exactly there.
- **Accumulators.** The collection type of a `Collector` (`Default + Extend`) is an
  `Accumulator` value, which holds an empty collection and an extend function. There are
  instances for `Vec` (a sequence) and `HashSet` (a set).

The model follows the code:

- `Computation::try_compute` keeps no completion flag. Every uncancelled poll runs the
  step again, so a poll after a value does not report `Exhausted`. This departs from the
  `Computable` trait's documentation (`computable.rs` lines 5-9), which says a computable
  returns `Exhausted` once its value has been returned.
- `Generator::try_next` does not check cancellation. After a step reports a cancellation,
  the generator goes on running the step on later polls.
- `Collector::try_compute` keeps its accumulator when it passes on a cancellation
  (`collector.rs` line 97).
- `Generator::next` (`generator.rs` lines 23-28) has no arm for `Exhausted`. The model
  requires that the step does not settle on `Exhausted`.

## Model

| member | source | states |
|---|---|---|
| Wrappers.Transpose | src/generator.rs:36-38 | `Result::transpose` as used by `try_next`: `Ok(None)` and only it becomes `None`; transposing back gives the argument again |
| Wrappers.TransposeUntranspose | src/generator.rs:36-38 | the transposition loses nothing in the other direction either: `Transpose(Untranspose(o)) == o` |
| Completion.DisplayMessages | src/completable.rs:32-40 | `Suspended` shows as "Operation suspended", `Exhausted` as "Computation exhausted", a cancellation as its reason's own text; the two fixed messages differ |
| Completion.FromCancelledKeepsReason | src/completable.rs:26-30 | `From<Cancelled>` gives a `Cancelled` carrying exactly the given reason, never `Suspended` or `Exhausted` |
| Computable.SettleCountUnique | src/computable.rs:24-32 | the number of suspensions before a computable settles is determined by the computable and its state |
| Computable.ComputeCompletable | src/computable.rs:24-32 | polls until the answer is not `Suspended`; returns exactly the answer of poll `k` (a value, a cancellation or `Exhausted`, unchanged) and leaves the state after `k + 1` polls |
| Computable.IntoCancellable | src/computable.rs:41-50 | the result mapping of `compute`: a value stays a value, `Cancelled(c)` becomes the bare `c`; re-wrapping the reason gives the settled answer back; `Suspended` and `Exhausted` are excluded (unreachable and a panic in the source) |
| Computable.CancelledRoundTrip | src/computable.rs:47 | unwrapping a wrapped cancellation reason gives that reason |
| Computable.Compute | src/computable.rs:41-50 | runs `compute_completable` and maps its answer: the result is `IntoCancellable` of the settling answer, the value itself when that answer is a value |
| Computable.ComputableResult.constructor | src/computable.rs:68-81 | `new`/`From`: wraps the computable with nothing cached (`result_ref()` is `None`) |
| Computable.ComputableResult.TryCompute | src/computable.rs:85-96 | with an empty cache: polls the inner computable once, passes a signal on with the cache still empty, caches a value and returns it; with a full cache: returns the cached value and leaves the inner computable untouched |
| Computable.CachedMirrorsInner | src/computable.rs:85-96 | until the inner computable's first value, the wrapper answers exactly what the inner one answers, poll for poll, with an empty cache |
| Computable.CachedAfterFirstValue | src/computable.rs:142-156 | after the first value, every later poll returns that same value and the inner computable is never polled again (the model's counterpart of the pointer-equality test) |
| Computable.CountingSettles | src/computable.rs:207-247 | the suspending test computable with target `t` suspends `t - 1` times and then returns `t`; for 3: `Suspended`, `Suspended`, `Ok(3)` |
| Identity.ComputableIdentity.constructor | src/computable_identity.rs:24-28 | `From<T>` holds the value |
| Identity.ComputableIdentity.TryCompute | src/computable_identity.rs:31-37 | returns the held value and empties the slot; with an empty slot returns `Exhausted`; afterwards the slot is always empty |
| Identity.IdentityEmptiedForever | src/computable_identity.rs:31-37 | after the first poll the identity is empty for good |
| Identity.IdentityYieldsOnce | src/computable_identity.rs:60-66 | the first poll returns the value, every later poll `Exhausted` |
| Identity.IdentityComputesValue | src/computable_identity.rs:53-58 | `compute` on a fresh identity settles at once on the held value |
| Computations.Computation.FromParts | src/computation.rs:81-94 | `from_parts` stores the two parts; `into_parts`, `context` and `state` give them back |
| Computations.Computation.SetState | src/computation.rs:104-106 | a write through `state_mut` is what `state()` reads next; the context is untouched |
| Computations.Computation.TryCompute | src/computation.rs:72-75 | a pending cancellation returns `Cancelled(reason)` without running the step and without touching the state; otherwise exactly one step runs and its answer and new state are the poll's |
| Computations.Computation.Compute | src/computation.rs:72-75 | `compute` on a computation: the result is the settling answer of its polls mapped by `IntoCancellable`; the state is the one after the settling poll |
| Computations.UncancelledFollowsStep | src/computation.rs:72-75 | without cancellation, `n` polls apply the step function `n` times and answer what it answers |
| Computations.NeverCompletes | src/computation.rs:216-230 | a step that always suspends makes every poll `Suspended` |
| Computations.SimpleStepPolls | src/computation.rs:119-178 | the tests' `SimpleStep` from state 0: `Suspended`, `Suspended`, then the value with state 3; the state equals the number of polls; a fourth poll runs the step again (no `Exhausted`) |
| Generators.NextItem | src/generator.rs:23-28 | what `next` returns for the step answer it stops at: the transposed answer with the cancellation reason unwrapped |
| Generators.Generator.FromParts | src/generator.rs:44-65 | `from_parts` stores the two parts; `into_parts`, `context` and `state` give them back |
| Generators.Generator.TryNext | src/generator.rs:36-38 | exactly one step, its answer transposed; only the state changes; no cancellation check |
| Generators.Generator.Next | src/generator.rs:21-30 | steps until the answer is not `Suspended` and returns `NextItem` of the answer of step `k`; the state is the one after `k + 1` steps |
| Generators.TryNextFollowsStep | src/generator.rs:36-38 | `n` calls of `try_next` walk through the states of `n` steps and answer their transposed results |
| Generatable.Items | src/generatable.rs:4-15 | the items a stream delivers: no more than its answers, every item comes from an `Ok` answer, and every `Ok` answer's item is among them |
| Generatable.ItemScript | src/generatable.rs:4-15 | the answers of a stream that yields the given items one by one, one answer per item |
| Generatable.ItemsOfItemScript | src/generatable.rs:4-15 | the items of that stream are exactly the given items, in order |
| Collectors.FoldVec | src/collector.rs:88-91 | extending a `Vec` item by item from empty gives the items in order |
| Collectors.FoldSet | src/collector.rs:210-232 | extending a `HashSet` item by item from empty gives the set of the items |
| Collectors.Collector.New | src/collector.rs:57-72 | `new` and `From<DynGeneratable>`: the accumulator is present and empty |
| Collectors.Collector.TryCompute | src/collector.rs:79-100 | one `try_next` per poll; end of stream: hand the accumulator out once, then `Exhausted`; an item: extend and suspend, or `Exhausted` if already handed out; a signal: passed on unchanged with the accumulator kept |
| Collectors.CollectorFollowsScript | src/collector.rs:79-100 | while the stream answers its script, the accumulator holds exactly the items pulled so far, folded in order |
| Collectors.CollectsScript | src/collector.rs:79-100 | a stream that answers a script of items and suspensions and then finishes: one `Suspended` per answer, then all items folded in order, then no accumulator |
| Collectors.SpentCollectorNeverYields | src/collector.rs:81-94 | once handed out, the accumulator never comes back: no later poll returns a value |
| Collectors.TestStreamEmits | src/collector.rs:109-138 | the tests' `TestGenerator` yields its items one by one and then finishes |
| Collectors.CollectsItemsInOrder | src/collector.rs:173-183 | collecting `TestGenerator` into a `Vec` gives its items, after one suspension per item |
| Collectors.CollectorBasicTests | src/collector.rs:151-195 | `[1, 2, 3]`: three `Suspended`, then `[1, 2, 3]`; the empty stream gives `[]` at once |
| Collectors.CollectorExhaustedAfterCompletion | src/collector.rs:298-314 | after handing out `[1]`, the next poll is `Exhausted` |
| Collectors.CollectorSetCollapsesDuplicates | src/collector.rs:210-232 | collecting `[1, 2, 2, 3]` into a `HashSet` gives `{1, 2, 3}` |
| Collectors.ItemsSkipSuspension | src/collector.rs:96 | a suspension answer adds no item |
| Collectors.CollectorWithSuspensions | src/collector.rs:234-296 | a stream that suspends once, then yields `[1, 2, 3]`: four `Suspended`, then `[1, 2, 3]` |
| Collectors.CollectorPassesCancellation | src/collector.rs:316-348 | a cancellation from the stream comes out of the collector as the same cancellation |
| Dyn.BoxedForwards | src/lib.rs:37-59 | a boxed computable or generatable forwards every poll: same answers, and its state is the box of the inner state, after any number of polls |
| Algorithm.ConfigureComputation | src/algorithm.rs:10-15 | `configure` builds a computation from its context and initial state, as `from_parts` does |
| Algorithm.ConfigureGenerator | src/algorithm.rs:10-15 | `configure` builds a generator from its context and initial state |
| Algorithm.Run | src/algorithm.rs:42-50 | `run` is `from_parts(...).compute()`: the settling answer of the computation's polls, mapped by `IntoCancellable` |
| Algorithm.GenComputation | src/algorithm.rs:67-74 | `computation` is a collector over the boxed generator, at the generator's current state, with an empty accumulator |
| Algorithm.GenComputationCollects | src/algorithm.rs:67-74 | that collector, over a generator answering a script, suspends once per answer and then returns the items folded in order |
| Integration.SumSettles | src/lib.rs:66-77 | the tests' summing computation suspends once per element of its context and then returns the sum |
| Integration.SumOfOneTwoThree | src/lib.rs:161-187 | boxed, over `[1, 2, 3]`: three `Suspended`, then 6 |
| Integration.RunSumExample | src/lib.rs:206-212 | `run` over `[5, 10, 15]` from 0 returns 30 |
| Integration.MemoisedSum | src/lib.rs:214-236 | `ComputableResult` over the sum of `[1, 2]`: 3 on the third poll, 3 again on the fourth, with the inner computation not polled again |
| Integration.RangeEmits | src/lib.rs:111-122 | the tests' range generator with context `n` yields 1 to `n` and then finishes |
| Integration.RangeOfFive | src/lib.rs:124-135 | with context 5: the items 1 to 5, then `None` |
| Integration.CollectRange | src/lib.rs:189-204 | `computation::<Vec<_>>()` over the range generator with context `n`: `n` suspensions, then `[1, ..., n]` |
| Integration.DrainRange | src/lib.rs:124-148 | the `while let Some(item) = try_next()` loop over a range generator with context `n` collects exactly `1, ..., n` |

## Left out

- Serde serialisation of `ComputableResult` and `Collector` is not modelled. It is an
  external format library and adds no behaviour to polling.
- The ambient cancellation capability is not modelled as global state. It is an explicit
  input (`cancel` or `cancelAt`). Its own implementation is outside the crate.
- Integer widths are not modelled. The tests' `u32`/`i32`/`usize` counters and the
  `context.len() as i32` cast are unbounded integers. The model's `Integration.Sum` is
  unbounded, so the `i32` overflow that `context.iter().sum()` can hit is not modelled.
- `Integration.SumStep`: the tests' state is an `i32` compared against `len() as i32`.
  The model compares unbounded integers, so contexts longer than `i32::MAX` are not
  covered.
- `Computations.SimpleStep` returns the pair (context, state) in place of the string
  `format!("context={}, state={}")`. String formatting is not modelled.
- `Completion.Display` takes the cancellation reason's text as a parameter
  (`showReason`). The reason type comes from another crate.
- Pointer identity is not modelled. The pointer-equality checks of the `ComputableResult`
  tests become the statement that the cache is returned and the inner computable is not
  polled again.
- `Box` allocation and dynamic dispatch are not modelled. A box is a value wrapping the
  inner state (`Dyn.Boxed`). Its poll forwards to the inner poll function.
- `dyn_computable`, `dyn_generatable` and both `dyn_algorithm` methods are not
  separate members. They are the `Dyn.BoxedPoll` wrapper, and the scenarios apply it.
- Panics are not modelled. The `unreachable!` and `panic!` arms of `compute` become
  preconditions: `Computable.Compute` and `Algorithm.Run` require a settling answer
  that is not `Exhausted`.
- `Computable.ComputeCompletable`: a computable that suspends forever makes the source
  loop forever. The model requires a finite suspension count `k`.
- `Generators.Generator.Next`: the same applies. The model also requires that the step
  does not settle on `Exhausted`, because the source's match has no arm for it.
- The `Iterator` implementations of the test-only generators (`TestGenerator`,
  `SuspendingGenerator`, `CancellingGenerator`) are not modelled. Only their `try_next`
  is exercised by the collector.
- `Computable.ComputableResult.ResultRef` and `Computable.ComputableResult.ComputableRef`
  stand for `result_ref`/`result` and `computable_ref`/`computable`. They are plain
  projections of the fields, and the constructor's and `TryCompute`'s contracts state
  what they read.
- Serialisation of the context and state (`test_serialization.rs`) is not part of this
  model.
