/** What a request handler hands back: a value, or the HTTP error it raises. */
module Responses {

  datatype Option<T> = None | Some(value: T)

  /** An `HTTPException` raised by the handlers; the framework's rejection
      (status 422) of query parameters that violate their declared bounds; or
      an exception nothing catches, which the framework answers with status 500. */
  datatype ApiError =
    | HttpException(status: int, detail: string)
    | RequestInvalid
    | Unhandled

  datatype Result<T> = Ok(value: T) | Err(error: ApiError)
}
