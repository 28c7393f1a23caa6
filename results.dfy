/** Option and Result values for the model: a missing value (JavaScript
    `undefined` or `null`) and the failures a request can end in. */
module Results {

  datatype Option<+T> = None | Some(value: T)

  /** The failures the routes answer with: 404 for a missing document,
      400 for a thrown error or a failed schema validation. */
  datatype Error =
    | NotFound(what: string)
    | BadRequest(reason: string)
    | ValidationFailed(field: string)
    | DuplicateKey(key: string)

  datatype Result<+T> = Ok(value: T) | Err(error: Error)

  /** JavaScript `x || d` for an optional value whose only falsy form is its absence. */
  function OrElse<T>(o: Option<T>, d: T): T
  {
    match o
    case Some(v) => v
    case None => d
  }
}
