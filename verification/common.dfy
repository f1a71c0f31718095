/** Vocabulary shared by every store of the storefront model: document
    identifiers, the JavaScript truthiness tests the request handlers apply to
    body fields, and the shape of a handler's answer. */
module Common {

  /** Database identifiers are opaque: the model only compares them. */
  type Id = string

  /** A request-body field that may be absent (`undefined`, `null`, `NaN`). */
  datatype Option<T> = None | Some(value: T)

  /** `!x` is false for a number: it is present and not zero. */
  predicate TruthyNumber(v: Option<int>) {
    v.Some? && v.value != 0
  }

  /** `!x` is false for a string: it is present and not empty. */
  predicate TruthyString(v: Option<string>) {
    v.Some? && v.value != ""
  }

  /** `!x` is false for an array: it only has to be present, so `[]` passes. */
  predicate TruthyArray<T>(v: Option<seq<T>>) {
    v.Some?
  }

  /** Why a request was answered with status 400. */
  datatype Reason =
    | IncompleteRequest                  // the fixed "Please provide ..." message
    | MissingFields(fields: seq<string>) // the watch handlers list what is missing
    | DuplicateName
    | DuplicateEmail
    | DuplicateKey                       // the store refused a second document under an existing id

  /** HTTP status classes collapse to these two errors; success is `Ok`. */
  datatype Error = BadRequest(reason: Reason) | NotFound

  datatype Result<T> = Ok(value: T) | Err(error: Error)

  /** What one request does: the store afterwards and the answer sent back. */
  datatype Transition<S, T> = Transition(next: S, result: Result<T>)
}
