/**
  Shared vocabulary of the phys2bids channel-container model: an optional
  value, a failure-compatible result, the exceptions the container raises,
  and Python's resolution of a (possibly negative) list subscript.
 */
module Common {

  /** Python's `None` or a value. */
  datatype Option<+T> = None | Some(value: T) {

    /** The value, or `default` when there is none. */
    function GetOr(default: T): T {
      match this
      case Some(v) => v
      case None => default
    }
  }

  /** The exceptions raised by the container and its single-frequency view. */
  datatype Error =
    | IndexError          // a list or array subscript out of range
    | SliceOutOfBounds    // the IndexError `__getitem__` raises for a window past the trigger
    | ZeroDivisionError   // rescaling an index by a zero trigger frequency
    | ZeroStep            // ValueError: slice step cannot be zero
    | EmptyArgMax         // ValueError: argmax of an empty array
    | RaggedChannels      // numpy cannot stack channels of unequal length into a matrix
    | FrequencyAbsent     // ValueError: the requested frequency is not among the channels'
    | TypeError
    | AttributeError
    | NameError

  /** Either a value or the exception that interrupted the computation. */
  datatype Result<+T> = Success(value: T) | Failure(error: Error) {

    predicate IsFailure() {
      Failure?
    }

    function PropagateFailure<U>(): Result<U>
      requires Failure?
    {
      Failure(error)
    }

    function Extract(): T
      requires Success?
    {
      value
    }
  }

  /** Position denoted by the subscript `i` of a Python list of length `n`:
      negative subscripts count from the end, anything else out of range
      raises IndexError (here: None). */
  function ResolveIndex(n: nat, i: int): (r: Option<nat>)
    ensures r.Some? <==> -(n as int) <= i < n
    ensures r.Some? ==> r.value < n && r.value == i % n
  {
    if 0 <= i < n then Some(i)
    else if -(n as int) <= i < 0 then Some(n + i)
    else None
  }
}
