/** The event record that runs publish, storage keeps and the stream writer
    maps (runtime/internal/session_event.go). */
module SessionEvents {
  import opened Wrappers

  /** A decoded JSON value, for tool arguments, tool responses and state. */
  datatype Json =
    | JNull
    | JBool(b: bool)
    | JNumber(text: string)
    | JString(s: string)
    | JArray(items: seq<Json>)
    | JObject(fields: map<string, Json>)

  datatype Part =
    | TextPart(text: string)
    | CallPart(id: string, name: string, args: map<string, Json>)
    | ResponsePart(id: string, name: string, response: map<string, Json>)

  datatype Content = Content(role: string, parts: seq<Part>)

  datatype SessionEvent = SessionEvent(
    errorCode: string,
    errorMessage: string,
    partial: bool,
    turnComplete: bool,
    interrupted: bool,
    author: string,
    branch: string,
    invocationId: string,
    content: Option<Content>)
}
