/** Result plumbing shared by the store: what the server answered, and what an operation resolves to. */
module Wrappers {

  datatype Option<+T> = None | Some(value: T)

  /** A server answer: the entity in `response.data.data`, or a failure carrying the optional
      `error` field of the response body. */
  datatype Response<+T> = Ok(data: T) | Err(message: Option<string>)

  /** The object every store operation returns: `{ success: true, data? }` or
      `{ success: false, error? }`. */
  datatype Outcome<+T> = Success(data: Option<T>) | Failure(error: Option<string>)
}
