/** What of a session event reaches the client
    (runtime/internal/agentapi/stream_event_mapper.go). */
module StreamMapping {
  import opened Wrappers
  import opened SessionEvents
  import opened StreamEvents
  import opened SseWriter
  import opened SseParser
  import opened StreamReducer
  import opened StreamTexts
  import opened AgentStream
  import opened Text

  // ----- One event -----

  predicate ReportsError(ev: SessionEvent) {
    !IsBlankText(ev.errorCode) || !IsBlankText(ev.errorMessage)
  }

  /** An event with an error code or message that is not blank becomes an
      error with that message, or else the code for message; any other event
      becomes an agent event. */
  lemma ErrorsAreMapped(ev: SessionEvent)
    ensures ToStreamEvent(ev).StreamError? <==> ReportsError(ev)
    ensures ToStreamEvent(ev).Agent? <==> !ReportsError(ev)
    ensures ReportsError(ev) ==>
              && IsTrimOf(ToStreamEvent(ev).message,
                          if IsBlankText(ev.errorMessage) then ev.errorCode else ev.errorMessage)
              && (ToStreamEvent(ev).code.None? <==> IsBlankText(ev.errorCode))
              && (ToStreamEvent(ev).code.Some? ==> IsTrimOf(ToStreamEvent(ev).code.value, ev.errorCode))
  {
    hide TrimSpace, MapContent, IsTrimOf;
    TrimSpaceEmptyIff(ev.errorCode);
    TrimSpaceEmptyIff(ev.errorMessage);
    TrimSpaceTrims(ev.errorCode);
    TrimSpaceTrims(ev.errorMessage);
  }

  /** The image of a part. */
  predicate IsImage(image: AgentPart, part: Part) {
    match part
    case TextPart(text) => image == AgentPart(Some(text), None, None)
    case CallPart(id, name, args) =>
      && image.text.None? && image.toolResult.None? && image.toolCall.Some?
      && image.toolCall.value.id == id && image.toolCall.value.name == name
      && image.toolCall.value.args == (if args == map[] then None else Some(args))
    case ResponsePart(id, name, response) =>
      && image.text.None? && image.toolCall.None? && image.toolResult.Some?
      && image.toolResult.value.id == id && image.toolResult.value.name == name
      && image.toolResult.value.response == (if response == map[] then None else Some(response))
  }

  function NonEmptyParts(parts: seq<Part>): seq<Part> {
    if parts == [] then []
    else (if parts[0] == TextPart("") then [] else [parts[0]]) + NonEmptyParts(parts[1..])
  }

  /** Every part but an empty text is mapped, in order. */
  lemma {:induction false} PartsAreMapped(parts: seq<Part>)
    ensures |MapParts(parts)| == |NonEmptyParts(parts)|
    ensures forall k :: 0 <= k < |NonEmptyParts(parts)| ==> IsImage(MapParts(parts)[k], NonEmptyParts(parts)[k])
    decreases |parts|
  {
    if parts != [] { PartsAreMapped(parts[1..]); }
  }

  /** The fields of an event that reports no error: empty names are left out,
      the flags are kept, and the content has the role, if it is one the
      client knows, and the parts. */
  lemma FieldsAreMapped(ev: SessionEvent)
    requires !ReportsError(ev)
    ensures ToStreamEvent(ev).Agent?
    ensures var image := ToStreamEvent(ev).event;
            && image.author == (if ev.author == "" then None else Some(ev.author))
            && image.branch == (if ev.branch == "" then None else Some(ev.branch))
            && image.invocationId == (if ev.invocationId == "" then None else Some(ev.invocationId))
            && image.partial == Some(ev.partial) && image.turnComplete == Some(ev.turnComplete)
            && (image.interrupted == Some(true) <==> ev.interrupted) && image.interrupted != Some(false)
            && Parts(image) == (if ev.content.Some? then MapParts(ev.content.value.parts) else [])
            && (image.content.None? <==>
                  ev.content.None? || (ev.content.value.role != "user" && ev.content.value.role != "model"
                                       && MapParts(ev.content.value.parts) == []))
            && (image.content.Some? ==>
                  image.content.value.role == (if ev.content.value.role == "user" || ev.content.value.role == "model"
                                               then Some(ev.content.value.role) else None))
  {
    hide MapParts;
    ErrorsAreMapped(ev);
  }

  // ----- A run -----

  /** The texts of the parts. */
  function TextParts(parts: seq<Part>): string {
    if parts == [] then "" else (if parts[0].TextPart? then parts[0].text else "") + TextParts(parts[1..])
  }

  /** What the agent says in an event. */
  function Spoken(ev: SessionEvent): string {
    if ReportsError(ev) || ev.content.None? || ev.content.value.role == "user" then ""
    else TextParts(ev.content.value.parts)
  }

  function SpokenBy(events: seq<SessionEvent>): string {
    if events == [] then "" else Spoken(events[0]) + SpokenBy(events[1..])
  }

  lemma MapPartsCons(parts: seq<Part>)
    requires parts != []
    ensures MapParts(parts) == OptionSeq(MapPart(parts[0])) + MapParts(parts[1..])
  {
    hide MapPart;
  }

  lemma TextsConcat(head: seq<AgentPart>, rest: seq<AgentPart>)
    requires |head| <= 1
    ensures Texts(head + rest, true) == (if head == [] || !IsText(head[0]) then [] else [head[0].text.value])
                                        + Texts(rest, true)
  {
    if head == [] { assert head + rest == rest; } else { assert (head + rest)[1..] == rest; }
  }

  lemma {:induction false} MappedTexts(parts: seq<Part>)
    ensures Concat(Texts(MapParts(parts), true)) == TextParts(parts)
    decreases |parts|
  {
    hide Concat, Texts, MapParts;
    if parts == [] {
      NoTexts();
      NoneAreTexts();
    } else {
      var head, rest := OptionSeq(MapPart(parts[0])), MapParts(parts[1..]);
      MappedTexts(parts[1..]);
      MapPartsCons(parts);
      TextsConcat(head, rest);
      ConcatCons(if head == [] || !IsText(head[0]) then [] else [head[0].text.value], Texts(rest, true));
    }
  }

  lemma NoneAreTexts()
    ensures MapParts([]) == [] && Texts([], true) == []
  {
  }

  lemma SaidIsSpoken(ev: SessionEvent)
    ensures (if ToStreamEvent(ev).Agent? then Said(ToStreamEvent(ev).event) else "") == Spoken(ev)
    ensures ToStreamEvent(ev).Agent? ==> ToStreamEvent(ev).event.partial == Some(ev.partial)
  {
    hide Concat, Texts, MapParts, TextParts, ToStreamEvent, IsBlankText;
    ErrorsAreMapped(ev);
    if !ReportsError(ev) {
      FieldsAreMapped(ev);
      if ev.content.Some? { MappedTexts(ev.content.value.parts); }
      NoTexts();
      assert Texts([], true) == [] by { NoneAreTexts(); }
    }
  }

  lemma {:induction false} MappedIsSpoken(events: seq<SessionEvent>)
    ensures SaidBy(MapAll(events)) == SpokenBy(events)
    ensures (forall k :: 0 <= k < |events| ==> events[k].partial) ==>
              forall k :: 0 <= k < |MapAll(events)| ==> IsChunk(MapAll(events)[k])
    decreases |events|
  {
    hide ToStreamEvent, Said, Spoken;
    if events != [] {
      SaidIsSpoken(events[0]);
      assert forall k :: 0 <= k < |events[1..]| ==> events[1..][k] == events[k + 1];
      MappedIsSpoken(events[1..]);
    }
  }

  lemma ClosingKeepsText(state: RunState, err: Option<string>)
    ensures Apply(state, if err.None? then DoneEvent else ErrorEvent(err.value)).text == state.text
    ensures Apply(state, if err.None? then DoneEvent else ErrorEvent(err.value)).error
         == if err.None? then state.error else Some(if err.value == "" then "stream error" else err.value)
  {
  }

  lemma RunIsFolded(sessionId: string, events: seq<SessionEvent>, err: Option<string>)
    ensures Fold(INITIAL, RunStream(sessionId, events, err)).text
         == Fold(INITIAL.(sessionId := Some(sessionId)), MapAll(events)).text
  {
    hide MapAll;
    var closing := if err.None? then DoneEvent else ErrorEvent(err.value);
    var first := Apply(INITIAL, SessionBound(sessionId));
    assert RunStream(sessionId, events, err)[1..] == MapAll(events) + [closing];
    FoldConcat(first, MapAll(events), [closing]);
    assert [closing][1..] == [];
    assert Fold(Fold(first, MapAll(events)), [closing]) == Apply(Fold(first, MapAll(events)), closing);
    ClosingKeepsText(Fold(first, MapAll(events)), err);
  }

  /** What the agent says in a run of chunks is the text the client ends up
      with, whatever else happened and however the run ended. */
  lemma ChunksReachTheClient(sessionId: string, events: seq<SessionEvent>, err: Option<string>)
    requires forall k :: 0 <= k < |events| ==> events[k].partial
    ensures Fold(INITIAL, RunStream(sessionId, events, err)).text == SpokenBy(events)
  {
    hide Fold, MapAll, Spoken, SaidBy, SpokenBy, RunStream;
    RunIsFolded(sessionId, events, err);
    MappedIsSpoken(events);
    ChunksAreJoined(INITIAL.(sessionId := Some(sessionId)), MapAll(events));
    assert "" + SpokenBy(events) == SpokenBy(events);
  }

  /** An answer that comes in chunks and then as a whole reaches the client
      once, as the whole has it. */
  lemma AnswerReachesTheClient(sessionId: string, chunks: seq<SessionEvent>, whole: SessionEvent, err: Option<string>)
    requires forall k :: 0 <= k < |chunks| ==> chunks[k].partial
    requires !whole.partial && !ReportsError(whole) && SpokenBy(chunks) <= Spoken(whole)
    ensures Fold(INITIAL, RunStream(sessionId, chunks + [whole], err)).text == Spoken(whole)
  {
    hide Fold, MapAll, Said, Spoken, SaidBy, SpokenBy, RunStream, Apply, ToStreamEvent, ReportsError;
    var first := INITIAL.(sessionId := Some(sessionId));
    RunIsFolded(sessionId, chunks + [whole], err);
    MapAllConcat(chunks, whole);
    MappedIsSpoken(chunks);
    SaidIsSpoken(whole);
    ErrorsAreMapped(whole);
    FoldConcat(first, MapAll(chunks), [ToStreamEvent(whole)]);
    FoldOne(Fold(first, MapAll(chunks)), ToStreamEvent(whole));
    StreamedAnswerIsShownOnce(first, MapAll(chunks), ToStreamEvent(whole).event);
  }

  lemma {:induction false} MapAllConcat(events: seq<SessionEvent>, last: SessionEvent)
    ensures MapAll(events + [last]) == MapAll(events) + [ToStreamEvent(last)]
    decreases |events|
  {
    hide ToStreamEvent;
    if events == [] {
      assert [last][1..] == [] && events + [last] == [last];
    } else {
      assert (events + [last])[1..] == events[1..] + [last];
      MapAllConcat(events[1..], last);
    }
  }

  lemma FoldOne(state: RunState, e: StreamEvent)
    ensures Fold(state, [e]) == Apply(state, e)
  {
    hide Apply;
    assert [e][1..] == [];
  }

  // ----- What the stream of a session tells -----

  /** The stream of a session read names the session, tells whether a run is
      active, and leaves the client idle. */
  lemma ReaderKnowsStatus(sessionId: string, active: bool, items: seq<Item>)
    ensures var last := Fold(INITIAL, ReadEvents(sessionId, active, items, SESSION_MAPPER));
            && !last.busy && last.sessionId == Some(sessionId) && last.sessionActive == Some(active)
            && (Ending(items, SESSION_MAPPER).Some? ==>
                  last.error == Some(if Ending(items, SESSION_MAPPER).value == "" then "stream error"
                                     else Ending(items, SESSION_MAPPER).value))
  {
    hide Body, Mapped, Ending, ToStreamEvent;
    BodyEndsOnce(items, SESSION_MAPPER);
    var ending := Ending(items, SESSION_MAPPER);
    var closing := if ending.None? then DoneEvent else ErrorEvent(ending.value);
    var mapped := Mapped(items, SESSION_MAPPER);
    var events := ReadEvents(sessionId, active, items, SESSION_MAPPER);
    var first := Apply(Apply(INITIAL, SessionBound(sessionId)), SessionStatus(active));
    assert events[1..][1..] == Body(items, SESSION_MAPPER);
    assert Fold(INITIAL, events) == Fold(first, Body(items, SESSION_MAPPER));
    FoldConcat(first, mapped, [closing]);
    MappedTellsNoStatus(items);
    FoldKeepsStatus(first, mapped);
    FoldOne(Fold(first, mapped), closing);
    ClosingKeepsText(Fold(first, mapped), ending);
  }

  lemma {:induction false} MappedTellsNoStatus(items: seq<Item>)
    ensures forall e :: e in Mapped(items, SESSION_MAPPER) ==> !e.SessionBound? && !e.SessionStatus?
    decreases |items|
  {
    hide ToStreamEvent;
    if items != [] && Trouble(items[0], SESSION_MAPPER).None? {
      MappedIsAgentOrError(items[0].value.value);
      MappedTellsNoStatus(items[1..]);
    }
  }

  lemma {:induction false} FoldKeepsStatus(state: RunState, events: seq<StreamEvent>)
    requires forall e :: e in events ==> !e.SessionBound? && !e.SessionStatus?
    ensures Fold(state, events).sessionId == state.sessionId
    ensures Fold(state, events).sessionActive == state.sessionActive
    decreases |events|
  {
    hide NextText, ToolSteps;
    if events != [] { FoldKeepsStatus(Apply(state, events[0]), events[1..]); }
  }
}
