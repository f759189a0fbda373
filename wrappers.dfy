/** Option, Result and the SQL-side Nullable used throughout the model.
    `Option` stands for a TypeScript property that may be `undefined`,
    `Nullable` for a database column that may be NULL; keeping the two
    apart is what makes the row mappers more than identities. */
module Wrappers {

  datatype Option<+T> = None | Some(value: T) {
    function GetOr(default: T): T {
      match this
      case Some(v) => v
      case None => default
    }
  }

  datatype Nullable<+T> = Null | NonNull(value: T)

  /** `column ?? undefined`. */
  function OrUndefined<T>(n: Nullable<T>): Option<T> {
    match n
    case Null => None
    case NonNull(v) => Some(v)
  }

  /** `property ?? null`. */
  function OrNull<T>(o: Option<T>): Nullable<T> {
    match o
    case None => Null
    case Some(v) => NonNull(v)
  }

  datatype Result<+T, +E> = Ok(value: T) | Err(error: E) {
    predicate IsFailure() {
      Err?
    }

    function PropagateFailure<U>(): Result<U, E>
      requires Err?
    {
      Err(error)
    }

    function Extract(): T
      requires Ok?
    {
      value
    }
  }

  /** A step that either passes or fails with an error, usable with `:-`. */
  datatype Outcome<+E> = Pass | Fail(error: E) {
    predicate IsFailure() {
      Fail?
    }

    function PropagateFailure(): Outcome<E>
      requires Fail?
    {
      this
    }
  }
}
