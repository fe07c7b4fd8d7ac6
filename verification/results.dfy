/** Failure-carrying values shared by the whole model: Go's `(value, error)`
    pairs become `Result`, a bare `error` return becomes `Outcome`, and an
    optional value (a decoded message, a found index) becomes `Option`. */
module Results {

  datatype Option<T> = None | Some(value: T)

  datatype Result<T, E> = Ok(value: T) | Err(error: E)

  datatype Outcome<E> = Pass | Fail(error: E)
}
