/** Repeated polling of an object, seen through its poll function: from the object's
    state, the value one call returns and the state the call leaves behind. Every
    `try_compute` and `try_next` of the model is one such function. */
module Polling {

  type Poll<!S, X> = S -> (X, S)

  /** The state after `n` successive polls starting from `s`. */
  function Iterate<S, X>(poll: Poll<S, X>, s: S, n: nat): S
    decreases n
  {
    if n == 0 then s else poll(Iterate(poll, s, n - 1)).1
  }

  /** What the poll numbered `i` (counting from 0) returns. */
  function OutputAt<S, X>(poll: Poll<S, X>, s: S, i: nat): X {
    poll(Iterate(poll, s, i)).0
  }

  /** A step function over an immutable context and a mutable state, seen as a poll
      function over the state alone: the context is fixed once and for all. */
  function WithContext<C, S, X>(step: (C, S) -> (X, S), context: C): Poll<S, X> {
    s => step(context, s)
  }
}
