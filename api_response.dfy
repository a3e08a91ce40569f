/**
 * The response envelope every endpoint and exception handler returns, and
 * its static factories. A field the factory does not set is `None`, the
 * null that JSON serialisation then omits.
 */
module Responses {
  import opened Wrappers
  import opened Entities

  /** The error part of an envelope. */
  datatype ErrorDetails = ErrorDetails(
    code: Option<string>,
    details: Option<string>,
    fieldErrors: Option<map<string, seq<string>>>,
    stackTrace: Option<string>)

  datatype ApiResponse<T> = ApiResponse(
    success: bool,
    message: Option<string>,
    data: Option<T>,
    error: Option<ErrorDetails>,
    timestamp: Instant)
  {
    /** A successful envelope carries no error; a failed one carries no data. */
    predicate Consistent() {
      (success ==> error.None?) && (!success ==> data.None?)
    }
  }

  const DefaultSuccessMessage: string := "İşlem başarılı"

  /** `success(data, message)`, stamped with the clock reading `now`. */
  function Success<T>(data: T, message: string, now: Instant): (r: ApiResponse<T>)
    ensures r.success && r.Consistent()
    ensures r.message == Some(message) && r.data == Some(data) && r.error == None
    ensures r.timestamp == now
  {
    ApiResponse(true, Some(message), Some(data), None, now)
  }

  /** `success(data)`: the data under the default message. */
  function SuccessData<T>(data: T, now: Instant): (r: ApiResponse<T>)
    ensures r == Success(data, DefaultSuccessMessage, now)
  {
    Success(data, DefaultSuccessMessage, now)
  }

  /** `success(message)`: a success without data, such as a deletion. */
  function SuccessMessage<T>(message: string, now: Instant): (r: ApiResponse<T>)
    ensures r.success && r.Consistent()
    ensures r.message == Some(message) && r.data == None && r.error == None
    ensures r.timestamp == now
  {
    ApiResponse(true, Some(message), None, None, now)
  }

  /** `error(message, error)`; `message` is `None` when the caller passes a null message. */
  function Error<T>(message: Option<string>, error: Option<ErrorDetails>, now: Instant): (r: ApiResponse<T>)
    ensures !r.success && r.Consistent()
    ensures r.message == message && r.data == None && r.error == error
    ensures r.timestamp == now
  {
    ApiResponse(false, message, None, error, now)
  }

  /** `error(message)`: an error without details. */
  function ErrorMessage<T>(message: Option<string>, now: Instant): (r: ApiResponse<T>)
    ensures r == Error(message, None, now)
  {
    Error(message, None, now)
  }

  /**
   * The two families of factories never produce the same envelope, and
   * what a success carries determines it.
   */
  lemma SuccessAndErrorDiffer<T>(data: T, message: string, errorMessage: Option<string>, error: Option<ErrorDetails>, now: Instant, later: Instant)
    ensures Success(data, message, now) != Error(errorMessage, error, later)
    ensures SuccessMessage<T>(message, now) != Error(errorMessage, error, later)
    ensures Success(data, message, now).data != SuccessMessage<T>(message, now).data
  {
  }
}
