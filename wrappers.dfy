/** Small datatypes shared by the modules of the model. */
module Wrappers {

  /** A value that may be absent (JavaScript's `null` / `undefined`). */
  datatype Option<+T> = None | Some(value: T)

  /** The outcome of an operation that either completes or throws. */
  datatype Outcome<+E> = Pass | Fail(error: E)

  /** What `await fetch(url)` followed by `response.json()` can give:
      a parsed body, a response whose `ok` flag is false, or a rejected fetch. */
  datatype Response<+T> = Ok(body: T) | NotOk | NetworkError

  /** Why a load throws: the fetch itself was rejected, or the response was not
      successful and the loader threw an error with the given message. */
  datatype LoadError = Network | Failed(message: string)
}
