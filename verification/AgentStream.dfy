/** From a background run to the browser: the events a run yields, published,
    written as frames, cut into chunks, parsed and folded. */
module AgentStream {
  import opened Wrappers
  import opened SessionEvents
  import opened StreamEvents
  import opened SseWriter
  import opened SseParser
  import opened SseStream
  import opened StreamReducer
  import P = BusProtocol
  import B = BusSafety
  import R = RunnerProtocol
  import S = RunnerSafety

  function Payloads(received: seq<SseJsonEvent>): seq<StreamEvent> {
    if received == [] then [] else [received[0].payload] + Payloads(received[1..])
  }

  lemma {:induction false} PayloadsOfReceived(events: seq<StreamEvent>)
    ensures Payloads(Received(events)) == events
    decreases |events|
  {
    if events != [] { PayloadsOfReceived(events[1..]); }
  }

  /** Folding what arrives is folding what was sent, for any chunking. */
  lemma ClientFoldsWhatWasWritten(codec: Codec, events: seq<StreamEvent>, chunks: seq<string>, state: RunState)
    requires Exact(codec, events) && Concat(chunks) == StreamText(codec, events)
    ensures !ParseResult(codec, chunks).1
    ensures Fold(state, Payloads(ParseResult(codec, chunks).0)) == Fold(state, events)
  {
    hide ParseResult, Exact;
    WrittenIsRead(codec, events, chunks);
    PayloadsOfReceived(events);
  }

  // ----- The end of a stream -----

  lemma {:induction false} FoldConcat(state: RunState, a: seq<StreamEvent>, b: seq<StreamEvent>)
    ensures Fold(state, a + b) == Fold(Fold(state, a), b)
    decreases |a|
  {
    if a == [] {
      assert a + b == b;
    } else {
      assert (a + b)[1..] == a[1..] + b;
      FoldConcat(Apply(state, a[0]), a[1..], b);
    }
  }

  lemma {:induction false} FoldKeepsSession(state: RunState, events: seq<StreamEvent>)
    requires forall e :: e in events ==> !e.SessionBound?
    ensures Fold(state, events).sessionId == state.sessionId
    decreases |events|
  {
    if events != [] { FoldKeepsSession(Apply(state, events[0]), events[1..]); }
  }

  /** After a run's stream the client is no longer busy, knows its session, and
      shows the error that ended the stream, if one did. */
  lemma ClientEndsIdle(sessionId: string, items: seq<Item>, mapper: Mapper)
    requires forall ev :: mapper(ev).Ok? ==> !mapper(ev).value.SessionBound?
    ensures var last := Fold(INITIAL, RunEvents(sessionId, items, mapper));
            && !last.busy
            && last.sessionId == Some(sessionId)
            && (Ending(items, mapper).Some? ==>
                  last.error == Some(if Ending(items, mapper).value == "" then "stream error"
                                     else Ending(items, mapper).value))
  {
    hide Body, Mapped, Ending;
    BodyEndsOnce(items, mapper);
    var closing := if Ending(items, mapper).None? then DoneEvent else ErrorEvent(Ending(items, mapper).value);
    var first := Apply(INITIAL, SessionBound(sessionId));
    var mapped := Mapped(items, mapper);
    assert RunEvents(sessionId, items, mapper)[1..] == Body(items, mapper);
    FoldConcat(first, mapped, [closing]);
    MappedHasNoSession(items, mapper);
    FoldKeepsSession(first, mapped);
    assert [closing][1..] == [];
    assert Fold(Fold(first, mapped), [closing]) == Apply(Fold(first, mapped), closing);
  }

  lemma {:induction false} MappedHasNoSession(items: seq<Item>, mapper: Mapper)
    requires forall ev :: mapper(ev).Ok? ==> !mapper(ev).value.SessionBound?
    ensures forall e :: e in Mapped(items, mapper) ==> !e.SessionBound?
    decreases |items|
  {
    if items != [] && Trouble(items[0], mapper).None? { MappedHasNoSession(items[1..], mapper); }
  }

  // ----- A whole run -----

  const SESSION_MAPPER: Mapper := ev => Ok(ToStreamEvent(ev))

  /** What an iterator hands to the writer: events, then at most one error. */
  function ItemsOf(events: seq<SessionEvent>, errors: seq<string>): seq<Item> {
    if events != [] then [Item(Ok(events[0]), None)] + ItemsOf(events[1..], errors)
    else if errors != [] then [Item(Err(errors[0]), None)]
    else []
  }

  function MapAll(events: seq<SessionEvent>): seq<StreamEvent> {
    if events == [] then [] else [ToStreamEvent(events[0])] + MapAll(events[1..])
  }

  function RunStream(sessionId: string, events: seq<SessionEvent>, err: Option<string>): seq<StreamEvent> {
    [SessionBound(sessionId)] + MapAll(events) + [if err.None? then DoneEvent else ErrorEvent(err.value)]
  }

  lemma {:induction false} BodyOfItems(events: seq<SessionEvent>, errors: seq<string>)
    ensures Body(ItemsOf(events, errors), SESSION_MAPPER)
         == MapAll(events) + [if errors == [] then DoneEvent else ErrorEvent(errors[0])]
    decreases |events|
  {
    hide ToStreamEvent;
    if events != [] { BodyOfItems(events[1..], errors); }
  }

  /** In every schedule: when the caller of Run has been served to the end, the
      stream written for it, cut into any chunks, leaves the browser in the
      state of folding the session, every event the run yielded, and the run's
      outcome -- although events passed through a buffer, a channel, text
      frames and arbitrary chunks. */
  lemma BrowserSeesTheRun(events: seq<R.Event>, w: R.World, i: nat, codec: Codec, chunks: seq<string>)
    requires R.Execute(R.NEW_WORLD, events) == R.Moved(w)
    requires i < |w.runs| && !w.runs[i].stage.Registered?
    requires Exact(codec, RunStream(w.runs[i].session, w.runs[i].yielded, w.runs[i].err))
    requires w.runs[i].consumer < |w.runs[i].sys.readers|
    requires B.Ended(w.runs[i].sys.readers[w.runs[i].consumer], true)
    requires var r := w.runs[i].sys.readers[w.runs[i].consumer];
             Concat(chunks) == StreamText(codec,
               RunEvents(w.runs[i].session, ItemsOf(P.Delivered(r), r.errors), SESSION_MAPPER))
    ensures !ParseResult(codec, chunks).1
    ensures Fold(INITIAL, Payloads(ParseResult(codec, chunks).0))
         == Fold(INITIAL, RunStream(w.runs[i].session, w.runs[i].yielded, w.runs[i].err))
  {
    hide ParseResult, Exact, Fold, MapAll, Body, StreamText, Payloads;
    S.RunCallerSeesTheRun(events, w, i);
    var run := w.runs[i];
    var r := run.sys.readers[run.consumer];
    BodyOfItems(run.yielded, r.errors);
    assert RunEvents(run.session, ItemsOf(run.yielded, r.errors), SESSION_MAPPER)
        == RunStream(run.session, run.yielded, run.err);
    ClientFoldsWhatWasWritten(codec, RunStream(run.session, run.yielded, run.err), chunks, INITIAL);
  }

  function ReadStream(sessionId: string, events: seq<SessionEvent>, err: Option<string>): seq<StreamEvent> {
    [SessionBound(sessionId), SessionStatus(true)]
    + (MapAll(events) + [if err.None? then DoneEvent else ErrorEvent(err.value)])
  }

  /** In every schedule: a browser that opens the session of a run under way,
      and stays to the end, has folded the counted history, then the whole run
      and its outcome, however late it came and however the text was cut. */
  lemma BrowserSeesHistoryAndRun(events: seq<R.Event>, w: R.World, j: nat, codec: Codec, chunks: seq<string>)
    requires R.Execute(R.NEW_WORLD, events) == R.Moved(w)
    requires j < |w.calls| && w.calls[j].run < |w.runs|
    requires var run := w.runs[w.calls[j].run];
             Exact(codec, ReadStream(run.session, R.FirstN(run.logAtStart, run.count) + run.yielded, run.err))
    requires S.FollowedToTheEnd(w, w.calls[j]) && !w.calls[j].cut
    requires var run := w.runs[w.calls[j].run];
             Concat(chunks) == StreamText(codec,
               ReadEvents(run.session, true,
                          ItemsOf(S.Shown(w, w.calls[j]), run.sys.readers[w.calls[j].stage.reader].errors),
                          SESSION_MAPPER))
    ensures !ParseResult(codec, chunks).1
    ensures var run := w.runs[w.calls[j].run];
            Fold(INITIAL, Payloads(ParseResult(codec, chunks).0))
              == Fold(INITIAL, ReadStream(run.session, R.FirstN(run.logAtStart, run.count) + run.yielded, run.err))
  {
    hide ParseResult, Exact, Fold, MapAll, Body, StreamText, Payloads, S.Shown;
    S.HistoryThenLiveRun(events, w, j);
    var run := w.runs[w.calls[j].run];
    var shown := R.FirstN(run.logAtStart, run.count) + run.yielded;
    BodyOfItems(shown, run.sys.readers[w.calls[j].stage.reader].errors);
    var errors := run.sys.readers[w.calls[j].stage.reader].errors;
    assert ReadEvents(run.session, true, ItemsOf(shown, errors), SESSION_MAPPER)
        == ReadStream(run.session, shown, run.err);
    ClientFoldsWhatWasWritten(codec, ReadStream(run.session, shown, run.err), chunks, INITIAL);
  }

  // ----- Tool calls from run to client -----

  function SessionCallIds(parts: seq<Part>): seq<string> {
    if parts == [] then []
    else (if parts[0].CallPart? then [parts[0].id] else []) + SessionCallIds(parts[1..])
  }

  /** The calls of a run's events; an event that reports an error carries
      none. */
  function RunCallIds(events: seq<SessionEvent>): seq<string> {
    if events == [] then []
    else
      (if ToStreamEvent(events[0]).Agent? && events[0].content.Some?
       then SessionCallIds(events[0].content.value.parts) else [])
      + RunCallIds(events[1..])
  }

  lemma {:induction false} MappedPartsKeepCalls(parts: seq<Part>)
    ensures CallIds(MapParts(parts)) == SessionCallIds(parts)
    decreases |parts|
  {
    if parts != [] {
      MappedPartsKeepCalls(parts[1..]);
      match MapPart(parts[0])
      case None =>
        assert MapParts(parts) == MapParts(parts[1..]) && SessionCallIds(parts) == SessionCallIds(parts[1..]);
      case Some(p) => assert MapParts(parts)[0] == p && MapParts(parts)[1..] == MapParts(parts[1..]);
    }
  }

  lemma MappedEventKeepsCalls(ev: SessionEvent)
    requires ToStreamEvent(ev).Agent?
    ensures CallIds(Parts(ToStreamEvent(ev).event))
         == if ev.content.Some? then SessionCallIds(ev.content.value.parts) else []
  {
    hide CallIds, SessionCallIds, MapParts, Text.TrimSpace;
    if ev.content.Some? {
      MappedPartsKeepCalls(ev.content.value.parts);
      NoCalls();
    }
    NoCalls();
  }

  lemma NoCalls()
    ensures CallIds([]) == []
  {
  }

  lemma RunCallIdsOfOne(ev: SessionEvent)
    ensures RunCallIds([ev])
         == if ToStreamEvent(ev).Agent? && ev.content.Some? then SessionCallIds(ev.content.value.parts) else []
  {
    hide ToStreamEvent, SessionCallIds;
    assert [ev][1..] == [] && RunCallIds([]) == [];
  }

  lemma EventKeepsCalls(state: RunState, ev: SessionEvent)
    ensures Ids(Apply(state, ToStreamEvent(ev)).toolCalls) == Ids(state.toolCalls) + RunCallIds([ev])
  {
    hide ToolSteps, Ids, ToStreamEvent, RunCallIds, CallIds, SessionCallIds, NextText;
    RunCallIdsOfOne(ev);
    MappedIsAgentOrError(ev);
    if ToStreamEvent(ev).Agent? { MappedEventKeepsCalls(ev); }
    if ToStreamEvent(ev).Agent? {
      ToolStepsIds(state.toolCalls, Parts(ToStreamEvent(ev).event));
    }
  }

  lemma MappedIsAgentOrError(ev: SessionEvent)
    ensures ToStreamEvent(ev).Agent? || ToStreamEvent(ev).StreamError?
  {
    hide MapContent, Text.TrimSpace;
  }

  lemma {:induction false} FoldKeepsCalls(state: RunState, events: seq<SessionEvent>)
    ensures Ids(Fold(state, MapAll(events)).toolCalls) == Ids(state.toolCalls) + RunCallIds(events)
    decreases |events|
  {
    hide Ids, Apply, ToStreamEvent;
    if events == [] {
      assert Ids(state.toolCalls) + [] == Ids(state.toolCalls);
    } else {
      EventKeepsCalls(state, events[0]);
      FoldKeepsCalls(Apply(state, ToStreamEvent(events[0])), events[1..]);
      assert [events[0]][1..] == [] && RunCallIds([]) == [];
      assert RunCallIds([events[0]]) + RunCallIds(events[1..]) == RunCallIds(events);
      Regroup(Ids(state.toolCalls), RunCallIds([events[0]]), RunCallIds(events[1..]));
    }
  }

  /** Every tool call of a run, in order and once each, is in the client's
      state at the end, however the run ended. */
  lemma CallsReachTheClient(sessionId: string, events: seq<SessionEvent>, err: Option<string>)
    ensures Ids(Fold(INITIAL, RunStream(sessionId, events, err)).toolCalls) == RunCallIds(events)
  {
    hide MapAll, RunCallIds, Ids;
    var closing := if err.None? then DoneEvent else ErrorEvent(err.value);
    var first := Apply(INITIAL, SessionBound(sessionId));
    assert RunStream(sessionId, events, err)[1..] == MapAll(events) + [closing];
    FoldConcat(first, MapAll(events), [closing]);
    FoldKeepsCalls(first, events);
    assert [closing][1..] == [];
    assert Fold(Fold(first, MapAll(events)), [closing]) == Apply(Fold(first, MapAll(events)), closing);
    NoEntries();
    assert [] + RunCallIds(events) == RunCallIds(events);
  }

  lemma NoEntries()
    ensures Ids([]) == []
  {
  }
}
