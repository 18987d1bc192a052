/** Optional values and the success-or-error outcome of a request handler. */
module Wrappers {

  datatype Option<+T> = None | Some(value: T)

  /** Why a handler failed. `Error` is the `{"error": message}` body the handlers
      return; `BadRequestKey` is the framework's rejection of a request whose
      query string lacks a key the handler indexes. */
  datatype Error = Error(message: string) | BadRequestKey(key: string)

  datatype Result<+T> = Success(value: T) | Failure(error: Error)
}
