/** The `Generatable` contract: a stream polled with `try_next`. `None` means the stream
    is finished, `Some(Ok(item))` carries an item, `Some(Err(Suspended))` asks to be polled
    again and `Some(Err(Cancelled(_)))` reports a cancellation. A generatable is given by
    its poll function over its own state. */
module Generatable {
  import opened Wrappers
  import opened Completion
  import opened Polling

  type TryNext<!G, I, R> = Poll<G, Option<Completable<I, R>>>

  /** An answer after which the stream goes on: an item, or a suspension. */
  predicate IsProgress<I, R>(o: Option<Completable<I, R>>) {
    o.Some? && (o.value.Ok? || o.value.error.Suspended?)
  }

  /** Polled from `g`, the stream answers `script` (items and suspensions only) and then
      reports that it is finished. */
  ghost predicate Emits<G, I, R>(tryNext: TryNext<G, I, R>, g: G, script: seq<Option<Completable<I, R>>>) {
    && (forall i :: 0 <= i < |script| ==> OutputAt(tryNext, g, i) == script[i] && IsProgress(script[i]))
    && OutputAt(tryNext, g, |script|).None?
  }

  /** The items of a sequence of answers, in order; suspensions carry none. */
  function Items<I, R>(script: seq<Option<Completable<I, R>>>): (r: seq<I>)
    ensures |r| <= |script|
    ensures forall j :: 0 <= j < |r| ==> exists i :: 0 <= i < |script| && script[i] == Some(Ok(r[j]))
    ensures forall i :: 0 <= i < |script| && script[i].Some? && script[i].value.Ok? ==> script[i].value.value in r
    decreases |script|
  {
    if |script| == 0 then []
    else
      var last := script[|script| - 1];
      var earlier := Items(script[..|script| - 1]);
      if last.Some? && last.value.Ok? then earlier + [last.value.value] else earlier
  }

  /** The answers of a stream that yields `xs` without ever suspending. */
  function ItemScript<I, R>(xs: seq<I>): (script: seq<Option<Completable<I, R>>>)
    ensures |script| == |xs|
    ensures forall i :: 0 <= i < |xs| ==> script[i] == Some(Ok(xs[i]))
  {
    seq(|xs|, i requires 0 <= i < |xs| => Some(Ok(xs[i])))
  }

  lemma {:induction false} ItemsOfItemScript<I, R>(xs: seq<I>)
    ensures Items(ItemScript<I, R>(xs)) == xs
    decreases |xs|
  {
    if |xs| > 0 {
      var n := |xs| - 1;
      assert ItemScript<I, R>(xs)[..n] == ItemScript<I, R>(xs[..n]);
      ItemsOfItemScript<I, R>(xs[..n]);
      assert xs[..n] + [xs[n]] == xs;
    }
  }
}
