/**
 The failure-compatible result types used throughout the model.

 The source signals failure by raising Python exceptions (an `assert` that
 does not hold raises `AssertionError`, a missing dictionary key raises
 `KeyError`, and so on). The model returns `Err(e)` instead, where `e` names
 the exception class the source would raise.
 */
module Outcome {

  /** The Python exception a failing operation raises. */
  datatype Exception =
    | AssertionError(what: string)
    | ValueError(what: string)
    | KeyError(what: string)
    | IndexError(what: string)
    | RuntimeError(what: string)
    | AttributeError(what: string)
    | TypeError(what: string)
    | ZeroDivisionError
      /** numpy/torch produce `inf` or `nan` here instead of raising; reals cannot hold them */
    | NonFinite(what: string)

  datatype Option<+T> = None | Some(value: T)

  datatype Result<+T> = Ok(value: T) | Err(error: Exception) {

    predicate IsFailure() {
      Err?
    }

    function PropagateFailure<U>(): Result<U>
      requires Err?
    {
      Err(error)
    }

    function Extract(): T
      requires Ok?
    {
      value
    }
  }

  /** `Ok(())` when `cond` holds, otherwise the given exception. */
  function Need(cond: bool, e: Exception): (r: Result<()>)
    ensures r.Ok? <==> cond
    ensures !cond ==> r == Err(e)
  {
    if cond then Ok(()) else Err(e)
  }

  /** The exception a failing Python `assert` raises. */
  function Check(cond: bool, what: string): (r: Result<()>)
    ensures r.Ok? <==> cond
    ensures !cond ==> r == Err(AssertionError(what))
  {
    Need(cond, AssertionError(what))
  }
}
