/** Failure-compatible wrappers for the converter.

    The converter reports failure the way Python does, by raising one of a
    small set of built-in exception classes. `Err` names the classes that can
    escape `deserialize`; `Result` carries either a value or one of them and
    works with Dafny's `:-` operator. */
module Results {

  /** The Python exception classes the converter raises or lets escape. */
  datatype Err =
    | ValueError
    | TypeError
    | KeyError
    | IndexError
    | AttributeError
    | AssertionError
    /** `int` of an infinite float, or `float` of an int too large for it;
        a union does not catch it. */
    | OverflowError
  {
    /** The union resolver catches exactly these two classes and moves on to
        the next candidate; every other class escapes the union. */
    predicate Recoverable() {
      this == ValueError || this == TypeError
    }
  }

  datatype Option<+T> = None | Some(value: T)

  datatype Result<+T> = Ok(value: T) | Raise(err: Err) {

    predicate IsFailure() {
      Raise?
    }

    function PropagateFailure<U>(): Result<U>
      requires Raise?
    {
      Raise(err)
    }

    function Extract(): T
      requires Ok?
    {
      value
    }

    /** True when this outcome ends a union's candidate search: a success,
        or an exception the search does not catch. */
    predicate Decisive() {
      !(Raise? && err.Recoverable())
    }
  }
}
