/** Option and the outcome of a Python call that may raise. */
module Wrappers {

  datatype Option<+T> = None | Some(value: T)

  /** What a raised exception means to the code that catches it:
      `Error` is any subclass of `Exception` (caught by `except Exception`),
      `SystemExit` is what `sys.exit` raises (not caught by `except Exception`). */
  datatype ExcKind = Error | SystemExit

  /** A call that returns a value or raises. Usable with `:-`. */
  datatype Outcome<+T> = Ok(value: T) | Raised(kind: ExcKind) {

    predicate IsFailure() {
      Raised?
    }

    function PropagateFailure<U>(): Outcome<U>
      requires Raised?
    {
      Raised(kind)
    }

    function Extract(): T
      requires Ok?
    {
      value
    }
  }
}
