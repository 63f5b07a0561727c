/** The parts of Python's runtime the service's control flow depends on:
    `Optional` values, the exceptions it raises or catches, and the result
    of a call that either returns a value or raises. */
module Python {

  /** `Optional[T]`: `None` or a value. */
  datatype Option<+T> = None | Some(value: T) {
    /** `x if x is not None else default` (also `dict.get(key, default)`). */
    function GetOr(default: T): T {
      match this
      case Some(v) => v
      case None => default
    }
  }

  /** One complaint of a pydantic validation error, attached to a field. */
  datatype Problem =
    | TooLong(limit: nat)        // a `max_length` bound was exceeded
    | Rejected(message: string)  // a field validator raised ValueError(message)
    | NotEmail                   // an `EmailStr` field is not an e-mail address
    | NotInteger                 // an `int` field got a non-integer
    | NotDatetime                // a `datetime` field got something else (None included)

  datatype FieldError = FieldError(field: string, problem: Problem)

  /** The detail of an HTTPException: fixed text, or the failure it wraps. */
  datatype Detail =
    | Text(text: string)
    | DatabaseError(cause: Exc)   // f"Database error: {str(db_error)}"

  /** The exceptions that cross the core's boundaries. */
  datatype Exc =
    | RuntimeError(message: string)
    | IndexError                         // `[][0]`
    | KeyError(key: string)
    | ValueError(message: string)
    | NameError(name: string)            // a name that is used but never imported
    | ValidationError(errors: seq<FieldError>)
    | DriverError(message: string)       // anything the database driver or the network raises
    | HttpException(status: nat, detail: Detail)
    | CancelledError                     // asyncio.CancelledError
  {
    /** Whether the exception derives from `Exception`, so that `except Exception`
        catches it. `asyncio.CancelledError` derives from `BaseException` only. */
    predicate IsException() {
      !CancelledError?
    }
  }

  /** The outcome of a Python call: it returns a value or raises. */
  datatype Outcome<+T> = Ok(value: T) | Raise(exc: Exc) {
    function PropagateFailure<U>(): Outcome<U>
      requires Raise?
    {
      Raise(exc)
    }
  }
}
