// The `Result` helper: a tagged record `{ok: true, value}` or
// `{ok: false, error}`, and `fromThrowing`, which turns a call that may throw
// into such a record.
module JsResult {
  import opened Common

  /** `{ok: true, value}` is `Success(value)`; `{ok: false, error}` is `Failure(error)`. */
  datatype Result<+T, +E> = Success(value: T) | Failure(error: E)
  {
    /** The record's `ok` field. */
    predicate Ok() { Success? }
  }

  /** `Result.ok(value)`. */
  function Ok<T, E>(value: T): (r: Result<T, E>)
    ensures r.Ok() && r.value == value
  {
    Success(value)
  }

  /** `Result.err(error)`. */
  function Err<T, E>(error: E): (r: Result<T, E>)
    ensures !r.Ok() && r.error == error
  {
    Failure(error)
  }

  /**
   * `Result.fromThrowing(func)`: `func` is called once; what that call did
   * (return or throw) is its `Completion`.
   */
  function FromThrowing<T, E>(func: () -> Completion<T, E>): (r: Result<T, E>)
    ensures func().Returned? ==> r == Ok(func().value)
    ensures func().Threw? ==> r == Err(func().error)
  {
    match func()
    case Returned(v) => Success(v)
    case Threw(e) => Failure(e)
  }

  /** Reading a result back as a call outcome. */
  function AsCompletion<T, E>(r: Result<T, E>): Completion<T, E>
  {
    if r.Success? then Returned(r.value) else Threw(r.error)
  }

  /** `fromThrowing` loses nothing: the record says exactly what the call did. */
  lemma FromThrowingRecordsOutcome<T, E>(func: () -> Completion<T, E>)
    ensures AsCompletion(FromThrowing(func)) == func()
    ensures FromThrowing(func).Ok() <==> func().Returned?
  {
  }
}
