/** Failure-carrying results shared by the whole model. A Python exception
    raised by an operation becomes a `Raise` carrying the exception's class. */
module Wrappers {

  datatype Option<+T> = None | Some(value: T)

  /** The Python exception classes the modelled code can raise. */
  datatype Error =
    | IndexError
    | RuntimeError
    | TypeError
    | ValueError
    | AttributeError
    | ZeroDivisionError

  datatype Result<+T> = Ok(value: T) | Raise(error: Error)
  {
    /** An exception propagates: `var x :- e;` stops at a `Raise`. */
    predicate IsFailure()
    {
      Raise?
    }

    function PropagateFailure<U>(): Result<U>
      requires Raise?
    {
      Raise(error)
    }

    function Extract(): T
      requires Ok?
    {
      value
    }
  }

  /** `s[i]` in Python: a negative index counts from the end, any
      other index out of range raises IndexError. */
  function PyIndex<T>(s: seq<T>, i: int): (r: Result<T>)
    ensures r.Ok? <==> -|s| <= i < |s|
    ensures r.Ok? ==> r.value in s
    ensures r.Ok? && 0 <= i ==> r.value == s[i]
    ensures r.Ok? && i < 0 ==> r.value == s[|s| + i]
    ensures r.Raise? ==> r.error == IndexError
  {
    if 0 <= i < |s| then Ok(s[i])
    else if -|s| <= i < 0 then Ok(s[|s| + i])
    else Raise(IndexError)
  }
}
