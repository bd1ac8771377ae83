/** Option, and the shape of an HTTP reply produced by a route handler. */
module Wrappers {

  datatype Option<+T> = None | Some(value: T)

  /** A handler's answer: a success status with a JSON body, or an error
      status with the `message` field of the JSON error body. */
  datatype Reply<+T> = Ok(status: int, body: T) | Fail(status: int, message: string)
}
