/** Failure-compatible wrappers shared by every module: the Python exceptions the
    source raises become `Raise(e)` values instead of preconditions. */
module Outcomes {

  datatype Option<+T> = None | Some(value: T)

  /** The exception classes the modelled code raises (or lets propagate). */
  datatype Error =
    | AssertionError
    | KeyError
    | TypeError
    | ValueError
    | IndexError
    | RuntimeError
    | OSError
    | ZeroDivisionError
    | UnboundLocalError
    | TransformNotInvertibleError

  datatype Result<+T> = Ok(value: T) | Raise(error: Error) {
    predicate IsFailure() {
      Raise?
    }

    function PropagateFailure<U>(): Result<U>
      requires Raise?
    {
      Raise(error)
    }

    function Extract(): T
      requires Ok?
    {
      value
    }
  }

  /** The values of the first `n` results in order, or the exception of the first
      of them that raised: a loop that stops at its first failure. */
  function Gather<T>(rs: seq<Result<T>>, n: nat): (r: Result<seq<T>>)
    requires n <= |rs|
    ensures r.Ok? ==> |r.value| == n
  {
    if n == 0 then Ok([])
    else
      var init :- Gather(rs, n - 1);
      var x :- rs[n - 1];
      Ok(init + [x])
  }

  /** Once the loop has failed, later results do not change its outcome. */
  lemma {:induction false} GatherFails<T>(rs: seq<Result<T>>, k: nat, n: nat)
    requires k <= n <= |rs| && Gather(rs, k).Raise?
    ensures Gather(rs, n) == Gather(rs, k)
    decreases n - k
  {
    if k < n {
      GatherFails(rs, k, n - 1);
    }
  }

  /** Value `i` of a loop that succeeded is result `i`. */
  lemma {:induction false} GatherAt<T>(rs: seq<Result<T>>, n: nat, i: nat)
    requires n <= |rs| && i < n && Gather(rs, n).Ok?
    ensures rs[i] == Ok(Gather(rs, n).value[i])
  {
    if i < n - 1 {
      GatherAt(rs, n - 1, i);
    }
  }
}
