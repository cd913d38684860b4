/** Option and Result, the two standard wrappers every poll result is built from,
    and the transposition between `Result<Option<T>, E>` and `Option<Result<T, E>>`. */
module Wrappers {

  datatype Option<+T> = None | Some(value: T)

  datatype Result<+T, +E> = Ok(value: T) | Err(error: E)

  /** `Result::transpose`: an `Ok(None)` becomes `None`, an `Ok(Some(x))` becomes
      `Some(Ok(x))` and an `Err(e)` becomes `Some(Err(e))`. It loses nothing: `Untranspose`
      gives the argument back. */
  function Transpose<T, E>(r: Result<Option<T>, E>): (o: Option<Result<T, E>>)
    ensures Untranspose(o) == r
    ensures o.None? <==> r.Ok? && r.value.None?
  {
    match r
    case Ok(None) => None
    case Ok(Some(x)) => Some(Ok(x))
    case Err(e) => Some(Err(e))
  }

  /** `Option::transpose`, the inverse of `Transpose`. */
  function Untranspose<T, E>(o: Option<Result<T, E>>): Result<Option<T>, E>
  {
    match o
    case None => Ok(None)
    case Some(Ok(x)) => Ok(Some(x))
    case Some(Err(e)) => Err(e)
  }

  lemma TransposeUntranspose<T, E>(o: Option<Result<T, E>>)
    ensures Transpose(Untranspose(o)) == o
  {
  }
}
