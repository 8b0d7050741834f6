/** Small value types shared by every module of the model. */
module Wrappers {

  /** A value that may be absent: a missing JSON key, a null field, a failed parse. */
  datatype Option<+T> = None | Some(value: T)

  /**
   * The outcome of one HTTP request to the learning-management API, as the
   * scripts see it: a status-200 response with its decoded body, any other
   * status code, or an exception raised by the request or the JSON decode.
   */
  datatype Fetch<+T> = Ok(body: T) | BadStatus | Raised
}
