/** The events of the agent API stream, and how session events map to them
    (runtime/internal/agentapi/stream_event_mapper.go). */
module StreamEvents {
  import opened Wrappers
  import opened SessionEvents
  import Text

  datatype ToolCall = ToolCall(id: string, name: string, args: Option<map<string, Json>>)

  datatype ToolResult = ToolResult(id: string, name: string, response: Option<map<string, Json>>)

  /** Exactly one field is meant to be present; the client copes with any. */
  datatype AgentPart = AgentPart(text: Option<string>, toolCall: Option<ToolCall>, toolResult: Option<ToolResult>)

  datatype AgentContent = AgentContent(role: Option<string>, parts: seq<AgentPart>)

  datatype AgentEvent = AgentEvent(
    author: Option<string>,
    branch: Option<string>,
    invocationId: Option<string>,
    partial: Option<bool>,
    turnComplete: Option<bool>,
    interrupted: Option<bool>,
    content: Option<AgentContent>)

  datatype StreamEvent =
    | SessionBound(sessionId: string)
    | SessionStatus(active: bool)
    | Agent(event: AgentEvent)
    | StreamError(message: string, code: Option<string>)
    | DoneEvent

  /** The value of the discriminating `event` field. */
  function Discriminator(e: StreamEvent): string {
    match e
    case SessionBound(_) => "sessionBound"
    case SessionStatus(_) => "sessionStatus"
    case Agent(_) => "agent"
    case StreamError(_, _) => "error"
    case DoneEvent => "done"
  }

  function NonEmpty(s: string): Option<string> {
    if s == "" then None else Some(s)
  }

  function MapPart(p: Part): Option<AgentPart> {
    match p
    case TextPart(text) => if text == "" then None else Some(AgentPart(Some(text), None, None))
    case CallPart(id, name, args) =>
      Some(AgentPart(None, Some(ToolCall(id, name, if args == map[] then None else Some(args))), None))
    case ResponsePart(id, name, response) =>
      Some(AgentPart(None, None, Some(ToolResult(id, name, if response == map[] then None else Some(response)))))
  }

  function MapParts(parts: seq<Part>): seq<AgentPart> {
    if parts == [] then []
    else (match MapPart(parts[0]) case Some(p) => [p] case None => []) + MapParts(parts[1..])
  }

  function MapContent(c: Option<Content>): Option<AgentContent> {
    if c.None? then None
    else
      var role := if c.value.role == "user" || c.value.role == "model" then Some(c.value.role) else None;
      var parts := MapParts(c.value.parts);
      if parts == [] && role.None? then None else Some(AgentContent(role, parts))
  }

  function ToStreamEvent(ev: SessionEvent): StreamEvent {
    var code, message := Text.TrimSpace(ev.errorCode), Text.TrimSpace(ev.errorMessage);
    if code != "" || message != "" then StreamError(if message != "" then message else code, NonEmpty(code))
    else
      Agent(AgentEvent(NonEmpty(ev.author), NonEmpty(ev.branch), NonEmpty(ev.invocationId), Some(ev.partial),
                       Some(ev.turnComplete), if ev.interrupted then Some(true) else None, MapContent(ev.content)))
  }
}
