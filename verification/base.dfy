/** Small value types shared by the store and the form: optional values, results with an
    error, the abstract outcome of a remote call, and JavaScript truthiness of strings. */
module Base {

  /** A value that may be absent; `None` stands for JavaScript's `undefined` or `null`. */
  datatype Option<+T> = None | Some(value: T)

  /** A value or an error; `Failure` stands for a thrown `Error`. */
  datatype Result<+T, +E> = Success(value: T) | Failure(error: E)

  /** What an awaited `fetch` (and the `res.json()` after it) delivered: a payload, or an
      exception that the caller's `catch` swallowed. */
  datatype Outcome<+T> = Ok(payload: T) | Err

  /** JavaScript truthiness of a possibly missing string: `undefined`, `null` and `""` are falsy. */
  predicate Truthy(v: Option<string>)
  {
    v.Some? && v.value != ""
  }

  /** The value of `a || b` for two possibly missing strings. */
  function Or(a: Option<string>, b: Option<string>): (r: Option<string>)
    ensures Truthy(a) ==> r == a
    ensures !Truthy(a) ==> r == b
  {
    if Truthy(a) then a else b
  }
}
