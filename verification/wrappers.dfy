/** Failure-compatible wrappers shared by the whole model: an optional value,
    and a result carrying either a value or the fault that aborts the run. */
module Wrappers {

  datatype Option<+T> = None | Some(value: T)

  /** Why a run of the generator stops. The scripts turn every one of these
      into an uncaught Python exception (or a printed error and exit). */
  datatype Fault =
    | NotAnInteger(text: string)   // `int(...)` rejects the suffix-stripped quantity
    | BadShape                     // KeyError, IndexError, TypeError or AttributeError on a document
    | Unrendered                   // a label/allocatable value that is not a YAML scalar
    | NotInList                    // `list.remove` of an absent element
    | TooFewDocuments              // `next(...)` ran past the end of a document stream

  datatype Result<+T> = Success(value: T) | Failure(error: Fault) {

    predicate IsFailure() {
      Failure?
    }

    function PropagateFailure<U>(): Result<U>
      requires Failure?
    {
      Failure(error)
    }

    function Extract(): T
      requires Success?
    {
      value
    }
  }

  /** Turns an absent value into the given fault. */
  function Need<T>(o: Option<T>, f: Fault): (r: Result<T>)
    ensures r.Success? <==> o.Some?
    ensures r.Success? ==> r.value == o.value
    ensures r.Failure? ==> r.error == f
  {
    match o
    case Some(v) => Success(v)
    case None => Failure(f)
  }
}
