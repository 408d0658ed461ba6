/**
 The JSON envelope the API routes answer with (lib/api-response.ts), and the
 bare `{ message }` body one route sends instead. A reply pairs the HTTP status
 with the body.
 */
module ApiResponse {
  import opened Js

  /** `{ statusCode, message, data, error }`, or a bare `{ message }`. */
  datatype Body<+D> =
    | Envelope(statusCode: int, message: string, data: Option<D>, error: Option<string>)
    | Bare(message: string)

  datatype Reply<+D> = Reply(status: int, body: Body<D>)

  /** `{ content }`, the data object both API routes put in a successful envelope. */
  datatype Content<+T> = Content(content: T)

  const DefaultMessage := "success"

  /** The HTTP status and the envelope's `statusCode` agree. */
  predicate Mirrored<D>(r: Reply<D>)
  {
    r.body.Envelope? && r.status == r.body.statusCode
  }

  /** `successResponse(res, data, message = 'success')`; `None` is an omitted message. */
  function SuccessResponse<D>(data: D, message: Option<string>): (r: Reply<D>)
    ensures Mirrored(r) && r.status == 200
    ensures r.body.data == Some(data) && r.body.error == None
    ensures message.None? ==> r.body.message == DefaultMessage
    ensures message.Some? ==> r.body.message == message.value
  {
    Reply(200, Envelope(200, message.GetOr(DefaultMessage), Some(data), None))
  }

  /** `errorResponse(res, statusCode, message, error?)`: the `error` field falls back to the
      message when the error argument is missing or empty. */
  function ErrorResponse<D>(statusCode: int, message: string, error: Option<string>): (r: Reply<D>)
    ensures Mirrored(r) && r.status == statusCode
    ensures r.body.message == message && r.body.data == None
    ensures Truthy(error) ==> r.body.error == error
    ensures !Truthy(error) ==> r.body.error == Some(message)
  {
    Reply(statusCode, Envelope(statusCode, message, None, Some(if Truthy(error) then error.value else message)))
  }
}
