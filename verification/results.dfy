/** Error kinds raised by the peak/valley classifier, and a failure-compatible
    result type so that a raised exception becomes an `Err` value. */
module Results {

  /** The ways the classifier can fail.
      - EmptySeries: `max`/`min` of an empty series (a ValueError in the source).
      - InsufficientData: the first difference of a one-point series is read at
        index 0 (an IndexError in the source).
      - UnknownError: a scan reached a boundary point coded 0.
      - ValleyPositionUnset: the valley pass commits a low point it never
        recorded (an UnboundLocalError in the source). */
  datatype Error = EmptySeries | InsufficientData | UnknownError | ValleyPositionUnset

  datatype Result<+T> = Ok(value: T) | Err(error: Error) {

    predicate IsFailure() {
      Err?
    }

    function PropagateFailure<U>(): Result<U>
      requires Err?
    {
      Err(error)
    }

    function Extract(): T
      requires Ok?
    {
      value
    }
  }

  /** A value that may be missing, such as a local variable not yet bound. */
  datatype Option<+T> = None | Some(value: T)
}
