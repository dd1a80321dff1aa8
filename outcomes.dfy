/** The two exceptions that can escape from the checker and end the run. */
module Outcomes {

  /** RuntimeError raised by request_api_data on a non-200 answer, and the
      ValueError raised when a response line does not unpack into two fields. */
  datatype Error =
    | RemoteServiceError(status: int)
    | UnpackError(line: string)

  /** A value, or the exception that interrupted its computation. */
  datatype Result<T> = Ok(value: T) | Err(error: Error)
}
