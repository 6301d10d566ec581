/**
 * Failure-carrying values shared by every module of the model.
 *
 * JavaScript `undefined`/`null` become `None`; a thrown exception becomes a
 * `Err` carrying the kind of error the source throws.
 */
module Results {

  /** A value that may be absent (`undefined` or `null` in the source). */
  datatype Option<+T> = None | Some(value: T) {

    /** `value ?? default`: the value when present, otherwise the default. */
    function GetOr(default: T): T {
      match this
      case Some(v) => v
      case None => default
    }
  }

  /** The classes of exception the source throws. */
  datatype Failure =
    | RangeError(msg: string)
    | ReferenceError(msg: string)
    | TypeError(msg: string)
    | PlainError(msg: string)

  /** Either the normal result of an operation or the exception it throws. */
  datatype Result<+T> = Ok(value: T) | Err(error: Failure) {

    predicate IsFailure() {
      Err?
    }

    function PropagateFailure<U>(): Result<U>
      requires Err?
    {
      Err(error)
    }

    function Extract(): T
      requires Ok?
    {
      value
    }
  }

  /** A uniformly random real in [0, 1), the model's stand-in for `Math.random()`. */
  predicate IsDraw(r: real) {
    0.0 <= r < 1.0
  }
}
