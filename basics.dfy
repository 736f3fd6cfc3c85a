/** Values and failure types shared by every stage of the sync script. */
module Basics {

  datatype Option<+T> = None | Some(value: T) {
    function GetOr(default: T): T {
      match this
      case Some(v) => v
      case None => default
    }
  }

  /** A stage either produces a value or ends the whole run with an error. */
  datatype Result<+T, +E> = Success(value: T) | Failure(error: E) {
    predicate IsFailure() {
      Failure?
    }

    function PropagateFailure<U>(): Result<U, E>
      requires Failure?
    {
      Failure(error)
    }

    function Extract(): T
      requires Success?
    {
      value
    }
  }

  /** A stage that changes state in place and may end the run with an error. */
  datatype Outcome<+E> = Pass | Fail(error: E)

  /** The only HTTP status the script treats as success. */
  const StatusOk: int := 200

  /** A scalar as it comes out of a JSON payload or a warehouse cell. */
  datatype Value = Null | Num(n: int) | Text(s: string)

  /**
   * Every exception the script can raise inside its single top-level
   * try/except; any of them turns the run into a logged failure.
   */
  datatype RunError =
    | MissingNextLink          // paging.next present without a 'link' key
    | BadTableId(cell: Value)  // int(x) refused an ID cell of the table
    | MissingBatchResults      // a 200 batch response without 'results'
    | MissingItemId            // a batch result item without 'id'
    | MissingItemProperties    // a batch result item without 'properties'
    | MissingColumn(name: string) // a column read or dropped that is not there

  /** Prepends the items gathered so far to the outcome of the rest of a loop. */
  function Prefixed<T, E>(xs: seq<T>, r: Result<seq<T>, E>): (p: Result<seq<T>, E>)
    ensures p.Success? <==> r.Success?
    ensures p.Success? ==> p.value == xs + r.value
    ensures p.Failure? ==> p.error == r.error
    ensures xs == [] ==> p == r
  {
    match r
    case Success(ys) => assert xs == [] ==> xs + ys == ys; Success(xs + ys)
    case Failure(e) => Failure(e)
  }

  lemma PrefixedTwice<T, E>(xs: seq<T>, ys: seq<T>, r: Result<seq<T>, E>)
    ensures Prefixed(xs, Prefixed(ys, r)) == Prefixed(xs + ys, r)
  {
    if r.Success? {
      assert xs + (ys + r.value) == (xs + ys) + r.value;
    }
  }
}
