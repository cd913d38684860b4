/** `ComputableIdentity`: a value that is already known, handed out by the first poll. */
module Identity {
  import opened Wrappers
  import opened Completion
  import opened Polling
  import opened Computable

  /** `try_compute` as a poll function over the held `Option<T>`: `take()` the value
      if it is there, otherwise report `Exhausted`. */
  function IdentityPoll<T, R>(value: Option<T>): (Completable<T, R>, Option<T>) {
    if value.Some? then (Ok(value.value), None) else (Err(Exhausted), None)
  }

  function IdentityPolls<T, R>(): Poll<Option<T>, Completable<T, R>> {
    v => IdentityPoll<T, R>(v)
  }

  class ComputableIdentity<T, R> {
    var value: Option<T>

    /** `From<T>`. */
    constructor (v: T)
      ensures value == Some(v)
    {
      value := Some(v);
    }

    method TryCompute() returns (r: Completable<T, R>)
      modifies this
      ensures (r, value) == IdentityPoll<T, R>(old(value))
      ensures old(value).Some? ==> r == Ok(old(value).value)
      ensures old(value).None? ==> r == Err(Exhausted)
      ensures value == None
    {
      if value.Some? {
        r := Ok(value.value);
        value := None;
      } else {
        r := Err(Exhausted);
      }
    }
  }

  lemma {:induction false} IdentityEmptiedForever<T, R>(v: T, i: nat)
    requires i >= 1
    ensures Iterate(IdentityPolls<T, R>(), Some(v), i) == None
  {
    if i > 1 {
      IdentityEmptiedForever<T, R>(v, i - 1);
    }
  }

  /** The first poll of `From(v)` returns `v`; every later poll returns `Exhausted`. */
  lemma IdentityYieldsOnce<T, R>(v: T, i: nat)
    ensures OutputAt(IdentityPolls<T, R>(), Some(v), 0) == Ok(v)
    ensures i >= 1 ==> OutputAt(IdentityPolls<T, R>(), Some(v), i) == Err(Exhausted)
  {
    if i >= 1 {
      IdentityEmptiedForever<T, R>(v, i);
    }
  }

  /** `compute` on a fresh identity settles at once and returns the wrapped value. */
  lemma IdentityComputesValue<T, R>(v: T)
    ensures SuspendsThenSettles(IdentityPolls<T, R>(), Some(v), 0)
    ensures IntoCancellable(OutputAt(IdentityPolls<T, R>(), Some(v), 0)) == Ok(v)
  {
  }
}
