/** The vocabulary of a poll: a value, or one of the three signals of `Incomplete`. */
module Completion {
  import opened Wrappers

  /** Why a poll produced no value. `R` is the cancellation reason, an opaque value
      handed over by the external cancellation capability and carried unchanged. */
  datatype Incomplete<+R> =
    | Suspended        // reached a suspend point; poll again
    | Cancelled(reason: R)
    | Exhausted        // the final value was already handed out

  /** The result of every poll: a final value, or an `Incomplete` signal. */
  type Completable<+T, +R> = Result<T, Incomplete<R>>

  /** What `compute` hands back: a value, or the cancellation reason alone. */
  type Cancellable<+T, +R> = Result<T, R>

  predicate IsSuspended<T, R>(c: Completable<T, R>) {
    c.Err? && c.error.Suspended?
  }

  predicate IsExhausted<T, R>(c: Completable<T, R>) {
    c.Err? && c.error.Exhausted?
  }

  /** The `From<Cancelled>` conversion used by `?` on a cancellation check. */
  function FromCancelled<R>(c: R): Incomplete<R> {
    Cancelled(c)
  }

  /** `Display` of a signal; a reason is shown by the reason's own `Display`. */
  function Display<R>(i: Incomplete<R>, showReason: R -> string): string {
    match i
    case Suspended => "Operation suspended"
    case Exhausted => "Computation exhausted"
    case Cancelled(c) => showReason(c)
  }

  /** The two fixed messages, the reason's text for a cancellation, and the fact that
      the fixed messages tell `Suspended` and `Exhausted` apart. */
  lemma DisplayMessages<R>(c: R, showReason: R -> string)
    ensures Display(Suspended, showReason) == "Operation suspended"
    ensures Display(Exhausted, showReason) == "Computation exhausted"
    ensures Display(Cancelled(c), showReason) == showReason(c)
    ensures Display<R>(Suspended, showReason) != Display<R>(Exhausted, showReason)
  {
  }

  /** The conversion keeps the reason: the result is a cancellation carrying exactly `c`,
      and it is never mistaken for the other two signals. */
  lemma FromCancelledKeepsReason<R>(c: R)
    ensures FromCancelled(c).Cancelled? && FromCancelled(c).reason == c
    ensures FromCancelled(c) != Suspended && FromCancelled(c) != Exhausted
  {
  }
}
