/** The boxed, type-erased forms (`DynComputable`, `DynAlgorithm`, `DynGeneratable`,
    `DynGenAlgorithm`) and their forwarding `try_compute`/`try_next`. A box owns its
    inner object and forwards every poll to it. */
module Dyn {
  import opened Polling

  datatype Boxed<S> = Boxed(inner: S)

  /** The forwarding poll of a box: poll the inner object, keep the result, re-box the
      inner object's new state. */
  function BoxedPoll<S, X>(poll: Poll<S, X>): Poll<Boxed<S>, X> {
    (b: Boxed<S>) => var p := poll(b.inner); (p.0, Boxed(p.1))
  }

  /** Boxing changes nothing about how an object polls: after any number of polls the
      box holds exactly the state the bare object would have, and each poll returns the
      same result. */
  lemma {:induction false} BoxedForwards<S, X>(poll: Poll<S, X>, s: S, n: nat)
    ensures Iterate(BoxedPoll(poll), Boxed(s), n) == Boxed(Iterate(poll, s, n))
    ensures OutputAt(BoxedPoll(poll), Boxed(s), n) == OutputAt(poll, s, n)
  {
    if n > 0 {
      BoxedForwards(poll, s, n - 1);
    }
  }
}
