/** The uniform response envelope every successful handler returns. */
module Envelope {
  import opened Wrappers
  import opened Entities

  datatype ApiResponse<T> = ApiResponse(
    success: bool,
    data: Option<T>,
    message: string,
    timestamp: Timestamp)

  /** The transport status a handler reports instead of an envelope. */
  datatype StatusCode = NotFound | BadRequest

  /** What a handler hands back: an envelope, or a bare status code. */
  type HandlerResult<T> = Result<ApiResponse<T>, StatusCode>

  /** An envelope carries a payload exactly when it reports success. */
  predicate WellFormed<T>(r: ApiResponse<T>)
  {
    r.success <==> r.data.Some?
  }

  /** `ok_response`; `stamp` stands for the `Utc::now()` it reads. */
  function OkResponse<T>(data: T, message: string, stamp: Timestamp): (r: ApiResponse<T>)
    ensures r.success && r.data == Some(data)
    ensures r.message == message && r.timestamp == stamp
    ensures WellFormed(r)
  {
    ApiResponse(true, Some(data), message, stamp)
  }

  /** `error_response`; no handler in the service calls it. */
  function ErrorResponse<T>(message: string, stamp: Timestamp): (r: ApiResponse<T>)
    ensures !r.success && r.data == None
    ensures r.message == message && r.timestamp == stamp
    ensures WellFormed(r)
  {
    ApiResponse(false, None, message, stamp)
  }

  /** The envelope with its timestamp erased, for comparing responses. */
  function Untimed<T>(r: ApiResponse<T>): ApiResponse<T>
  {
    r.(timestamp := 0)
  }
}
