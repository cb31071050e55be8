/** Failure-carrying values shared by the whole model: `Option` for JavaScript's
    `undefined`/absent values and for JSON.parse's SyntaxError, `Result` for a call
    that either returns or throws. */
module Results {

  datatype Option<+T> = None | Some(value: T)

  datatype Result<+T, +E> = Ok(value: T) | Err(error: E)
}
