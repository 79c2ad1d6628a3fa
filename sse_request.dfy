/**
 * What both generations of the service check before they accept a request as
 * an event stream, and the headers they answer it with:
 * `validateRequestForSSE` of packages/sse/lib/utils/index.js (repeated as a
 * private function of packages/sse/lib/sse-service.js) and the same two
 * checks inside lib's `_verifyRequest`.
 */
module SseRequest {
  import opened Wrappers
  import opened Http
  import Json

  /** The headers of an event-stream response. */
  const SseHttpResponseHeaders: Headers := map[
    "Content-Type" := "text/event-stream",
    "Connection" := "keep-alive",
    "Cache-Control" := "no-cache",
    "X-Accel-Buffering" := "no"]

  const HeadersSentMessage := "Cannot register a connection with headers already sent"

  const AcceptMessage :=
    "Cannot register connection : The request HTTP header \"Accept\" is not set to \"text/event-stream\""

  /** `req.headers['accept'] === 'text/event-stream'`. */
  predicate AcceptsEventStream(headers: Headers) {
    "accept" in headers && headers["accept"] == "text/event-stream"
  }

  /** `JSON.stringify({error: message})`, the body of a refusal. */
  function ErrorBody(message: string): string {
    Json.Stringify(Json.JObject([("error", Json.JString(message))]))
  }

  /** The body of the 400 answer. */
  function AcceptRejection(): string {
    ErrorBody(AcceptMessage)
  }

  /** `{status, message}`: why a request cannot become an event stream. */
  datatype Rejection = Rejection(status: int, message: string)

  /**
   * `validateRequestForSSE(req, res)`: a response whose headers are out cannot
   * be registered (500); a request that does not accept an event stream is
   * refused (400); `null` otherwise. The header check comes first.
   */
  function ValidateRequestForSSE(headers: Headers, headersSent: bool): (r: Option<Rejection>)
    ensures r.None? <==> !headersSent && AcceptsEventStream(headers)
    ensures r.Some? ==> (r.value.status == 500 <==> headersSent)
    ensures r.Some? && r.value.status == 500 ==> r.value.message == HeadersSentMessage
    ensures r.Some? && r.value.status != 500 ==> r.value == Rejection(400, AcceptMessage)
  {
    if headersSent then Some(Rejection(500, HeadersSentMessage))
    else if !AcceptsEventStream(headers) then Some(Rejection(400, AcceptMessage))
    else None
  }

  /** The refusal body names the reason, as a JSON object with one `error` member. */
  lemma RejectionBody(message: string)
    ensures ErrorBody(message) == "{" + Json.Quote("error") + ":" + Json.Quote(message) + "}"
  {
    Json.StringifySingleMember("error", Json.JString(message));
  }
}
