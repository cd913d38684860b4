/** The `Computable` contract: an object polled with `try_compute` until it returns
    something other than `Suspended`. A computable is given here by its poll function
    (see module Polling), so the trait's default methods `compute_completable` and
    `compute` are written once, for every computable of the model. Also the memoising
    wrapper `ComputableResult`. */
module Computable {
  import opened Wrappers
  import opened Completion
  import opened Polling

  /** The first `k` polls from `s` suspend and poll number `k` does not. */
  ghost predicate SuspendsThenSettles<S, T, R>(poll: Poll<S, Completable<T, R>>, s: S, k: nat) {
    && (forall i: nat :: i < k ==> IsSuspended(OutputAt(poll, s, i)))
    && !IsSuspended(OutputAt(poll, s, k))
  }

  /** The number of suspensions before settling is determined by the computable. */
  lemma SettleCountUnique<S, T, R>(poll: Poll<S, Completable<T, R>>, s: S, k: nat, k': nat)
    requires SuspendsThenSettles(poll, s, k) && SuspendsThenSettles(poll, s, k')
    ensures k == k'
  {
  }

  /** `compute_completable`: poll until the result is not `Suspended` and return that
      result unchanged. A computable that suspends `k` times is polled exactly `k + 1`
      times; the loop cannot end on its own otherwise, so `k` is required to exist. */
  method ComputeCompletable<S, T, R>(poll: Poll<S, Completable<T, R>>, s0: S, ghost k: nat)
    returns (r: Completable<T, R>, s: S)
    requires SuspendsThenSettles(poll, s0, k)
    ensures r == OutputAt(poll, s0, k) && !IsSuspended(r)
    ensures s == Iterate(poll, s0, k + 1)
  {
    s := s0;
    ghost var i: nat := 0;
    while true
      invariant i <= k && s == Iterate(poll, s0, i)
      decreases k - i
    {
      var polled := poll(s);
      assert polled.0 == OutputAt(poll, s0, i);
      s := polled.1;
      assert s == Iterate(poll, s0, i + 1);
      if !IsSuspended(polled.0) {
        return polled.0, s;
      }
      i := i + 1;
    }
  }

  /** The mapping `compute` applies to a settled result: a value stays a value, a
      cancellation gives its bare reason. `Suspended` cannot occur and `Exhausted`
      panics in the source, so both are excluded. Converting the reason back gives the
      settled result again. */
  function IntoCancellable<T, R>(c: Completable<T, R>): (r: Cancellable<T, R>)
    requires !IsSuspended(c) && !IsExhausted(c)
    ensures c == if r.Ok? then Ok(r.value) else Err(FromCancelled(r.error))
  {
    if c.Ok? then Ok(c.value) else Err(c.error.reason)
  }

  lemma {:induction false} CancelledRoundTrip<T, R>(c: R)
    ensures IntoCancellable<T, R>(Err(FromCancelled(c))) == Err(c)
  {
  }

  /** `compute`: drive to completion and strip the signal from the result. */
  method Compute<S, T, R>(poll: Poll<S, Completable<T, R>>, s0: S, ghost k: nat)
    returns (r: Cancellable<T, R>, s: S)
    requires SuspendsThenSettles(poll, s0, k) && !IsExhausted(OutputAt(poll, s0, k))
    ensures r == IntoCancellable(OutputAt(poll, s0, k))
    ensures OutputAt(poll, s0, k).Ok? ==> r == Ok(OutputAt(poll, s0, k).value)
    ensures s == Iterate(poll, s0, k + 1)
  {
    var c;
    c, s := ComputeCompletable(poll, s0, k);
    r := IntoCancellable(c);
  }

  /** `ComputableResult::try_compute` as a poll function over (inner state, cache): with
      an empty cache the inner computable is polled once and a value is stored; a signal
      is passed on and the cache stays empty. With a full cache the inner computable is
      left alone. */
  function CachedPoll<S, T, R>(poll: Poll<S, Completable<T, R>>, w: (S, Option<T>))
    : (Completable<T, R>, (S, Option<T>))
  {
    if w.1.None? then
      var inner := poll(w.0);
      if inner.0.Ok? then (Ok(inner.0.value), (inner.1, Some(inner.0.value)))
      else (Err(inner.0.error), (inner.1, None))
    else (Ok(w.1.value), w)
  }

  function Cached<S, T, R>(poll: Poll<S, Completable<T, R>>): Poll<(S, Option<T>), Completable<T, R>> {
    w => CachedPoll(poll, w)
  }

  /** The memoising wrapper around a computable with state `S`. */
  class ComputableResult<S, T, R> {
    const poll: Poll<S, Completable<T, R>>
    var computable: S
    var result: Option<T>

    /** `new` (and `From<C>`): nothing cached yet. */
    constructor (poll: Poll<S, Completable<T, R>>, computable: S)
      ensures this.poll == poll && this.computable == computable
      ensures ResultRef() == None
    {
      this.poll := poll;
      this.computable := computable;
      result := None;
    }

    /** `result_ref` and `result`: the cached value, if any. */
    function ResultRef(): Option<T>
      reads this
    {
      result
    }

    /** `computable_ref` and `computable`: the wrapped computable. */
    function ComputableRef(): S
      reads this
    {
      computable
    }

    method TryCompute() returns (r: Completable<T, R>)
      modifies this
      ensures (r, (computable, result)) == CachedPoll(poll, (old(computable), old(result)))
      ensures old(result).Some? ==>
        r == Ok(old(result).value) && result == old(result) && computable == old(computable)
      ensures old(result).None? ==>
        r == poll(old(computable)).0 && computable == poll(old(computable)).1
      ensures old(result).None? && r.Ok? ==> ResultRef() == Some(r.value)
      ensures old(result).None? && r.Err? ==> ResultRef() == None
    {
      if result.None? {
        var inner := poll(computable);
        computable := inner.1;
        if inner.0.Err? {
          return Err(inner.0.error);
        }
        result := Some(inner.0.value);
      }
      r := Ok(result.value);
    }
  }

  /** Until the inner computable first returns a value, the wrapper polls it in lock
      step, returns what it returns, and keeps its cache empty. */
  lemma {:induction false} CachedMirrorsInner<S, T, R>(poll: Poll<S, Completable<T, R>>, s: S, n: nat)
    requires forall i: nat :: i < n ==> !OutputAt(poll, s, i).Ok?
    ensures Iterate(Cached(poll), (s, None), n) == (Iterate(poll, s, n), None)
    ensures OutputAt(Cached(poll), (s, None), n) == OutputAt(poll, s, n)
  {
    if n > 0 {
      CachedMirrorsInner(poll, s, n - 1);
      assert !OutputAt(poll, s, n - 1).Ok?;
    }
    var inner := poll(Iterate(poll, s, n));
    if inner.0.Err? {
      assert OutputAt(Cached(poll), (s, None), n) == Err(inner.0.error);
    }
  }

  /** After the first value `v` (at poll `k`), every later poll returns `v` again and the
      inner computable is never polled again: its state stays the one it had after
      poll `k`. */
  lemma {:induction false} CachedAfterFirstValue<S, T, R>(poll: Poll<S, Completable<T, R>>, s: S, k: nat, j: nat)
    requires forall i: nat :: i < k ==> !OutputAt(poll, s, i).Ok?
    requires OutputAt(poll, s, k).Ok?
    requires j > k
    ensures Iterate(Cached(poll), (s, None), j) == (Iterate(poll, s, k + 1), Some(OutputAt(poll, s, k).value))
    ensures OutputAt(Cached(poll), (s, None), j) == OutputAt(poll, s, k)
  {
    if j == k + 1 {
      CachedMirrorsInner(poll, s, k);
    } else {
      CachedAfterFirstValue(poll, s, k, j - 1);
    }
  }

  /** The computable of the tests at computable.rs that counts its polls and settles
      once the count reaches `target`; state is (count, target). */
  function CountingPoll<R>(w: (nat, nat)): (Completable<nat, R>, (nat, nat)) {
    var count := w.0 + 1;
    (if count < w.1 then Err(Suspended) else Ok(count), (count, w.1))
  }

  function Counting<R>(): Poll<(nat, nat), Completable<nat, R>> {
    w => CountingPoll(w)
  }

  lemma {:induction false} CountingIterate<R>(target: nat, i: nat)
    ensures Iterate(Counting<R>(), (0, target), i) == (i, target)
  {
    if i > 0 {
      CountingIterate<R>(target, i - 1);
    }
  }

  /** A computable that suspends `target - 1` times settles on its `target`-th poll with
      value `target`; for target 3: Suspended, Suspended, then 3. */
  lemma CountingSettles<R>(target: nat)
    requires target >= 1
    ensures SuspendsThenSettles(Counting<R>(), (0, target), target - 1)
    ensures OutputAt(Counting<R>(), (0, target), target - 1) == Ok(target)
  {
    forall i: nat | i <= target - 1
      ensures OutputAt(Counting<R>(), (0, target), i) == if i + 1 < target then Err(Suspended) else Ok(i + 1)
    {
      CountingIterate<R>(target, i);
    }
  }
}
