/** The audit event and its payload (pkg/audit/event.go), reduced to the fields that queries,
    aggregates, the live tail and replay look at. */
module Audit {
  import opened Json

  // Timestamps and durations are integers; a nil map or payload is None.
  datatype Event = Event(
    id: string,
    ts: int,
    durationMs: int,
    sessionId: string,
    userSubject: string,
    authType: string,
    toolName: string,
    success: bool,
    errorMessage: string,
    payload: Option<Payload>)

  datatype Payload = Payload(
    requestParams: Option<map<string, Json>>,
    requestHeaders: Option<map<string, seq<string>>>,
    responseResult: Option<map<string, Json>>,
    responseError: Option<map<string, Json>>,
    notifications: seq<Notification>,
    replayedFrom: string)

  datatype Notification = Notification(ts: string, noteMethod: string, params: Option<map<string, Json>>)

  // pkg/audit/logger.go:56
  const MAX_QUERY_LIMIT := 1000
}
