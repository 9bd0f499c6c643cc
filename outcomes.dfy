/** Optional values and the exceptions the counting pipeline can raise. */
module Outcomes {

  datatype Option<+T> = None | Some(value: T)

  /** The Python exceptions that end a run of the pipeline, grouped by what raises them. */
  datatype Error =
    | KeyMissing(key: string)       // a dict lookup of a key that was never set (KeyError)
    | IndexOutOfRange               // a list or pandas Series indexed outside its range
    | UnboundName(name: string)     // a variable read before any assignment to it (UnboundLocalError, NameError)
    | UnreadableImage(name: string) // cv2.imread returned None and the next array operation raised
    | InvalidWindow                 // scipy.ndimage.median_filter given a window size below 1
    | RowMissing(index: int)        // a pandas Series looked up by a row label it does not have (KeyError)
    | DivisionByZero                // np.arange given a step of 0

  /** A computation that either produced a value or raised an exception. */
  datatype Result<+T> = Success(value: T) | Failure(error: Error) {

    predicate IsFailure() {
      Failure?
    }

    function PropagateFailure<U>(): Result<U>
      requires Failure?
    {
      Failure(error)
    }

    function Extract(): T
      requires Success?
    {
      value
    }
  }

  /** Python's `xs[i]` on a list: negative indices count from the end, anything else out of range raises. */
  function PyIndex<T>(xs: seq<T>, i: int): (r: Result<T>)
    ensures r.Success? <==> -|xs| <= i < |xs|
    ensures r.Success? ==> r.value == if i >= 0 then xs[i] else xs[|xs| + i]
  {
    if 0 <= i < |xs| then Success(xs[i])
    else if -|xs| <= i < 0 then Success(xs[|xs| + i])
    else Failure(IndexOutOfRange)
  }

  /** Reading a variable that holds a value only once some earlier statement assigned it. */
  function ReadBound<T>(v: Option<T>, name: string): (r: Result<T>)
    ensures r.Success? <==> v.Some?
    ensures r.Success? ==> r.value == v.value
    ensures r.Failure? ==> r.error == UnboundName(name)
  {
    match v
    case None => Failure(UnboundName(name))
    case Some(x) => Success(x)
  }
}
