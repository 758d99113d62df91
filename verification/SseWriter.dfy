/** The server side of the event stream: one text frame per event, ending with
    exactly one closing event (runtime/internal/agentapi/sse.go).  The frame
    format is that of sections 9.2.5 and 9.2.6 of the WHATWG HTML Living
    Standard. */
module SseWriter {
  import opened Wrappers
  import opened SessionEvents
  import opened StreamEvents

  /** The JSON engine, as the two functions the stream needs. */
  datatype Codec = Codec(encode: StreamEvent -> string, decode: string -> Option<StreamEvent>)

  function FrameText(name: string, data: string): string {
    "event: " + name + "\ndata: " + data + "\n\n"
  }

  function EventText(codec: Codec, e: StreamEvent): string {
    FrameText(Discriminator(e), codec.encode(e))
  }

  function StreamText(codec: Codec, events: seq<StreamEvent>): string {
    if events == [] then "" else EventText(codec, events[0]) + StreamText(codec, events[1..])
  }

  /** One item of an event iterator, with the request context's state when it
      arrives. */
  datatype Item = Item(value: Result<SessionEvent, string>, ctxErr: Option<string>)

  type Mapper = SessionEvent -> Result<StreamEvent, string>

  function ErrorEvent(err: string): StreamEvent {
    StreamError(if err == "" then "stream error" else err, None)
  }

  /** The first thing to go wrong with an item. */
  function Trouble(item: Item, mapper: Mapper): Option<string> {
    if item.ctxErr.Some? then item.ctxErr
    else
      match item.value
      case Err(err) => Some(err)
      case Ok(ev) => match mapper(ev) case Err(err) => Some(err) case Ok(_) => None
  }

  /** The events written for the items: mapped up to the first trouble, then
      one closing event. */
  function Body(items: seq<Item>, mapper: Mapper): seq<StreamEvent> {
    if items == [] then [DoneEvent]
    else if Trouble(items[0], mapper).Some? then [ErrorEvent(Trouble(items[0], mapper).value)]
    else [mapper(items[0].value.value).value] + Body(items[1..], mapper)
  }

  function Ending(items: seq<Item>, mapper: Mapper): Option<string> {
    if items == [] then None
    else if Trouble(items[0], mapper).Some? then Trouble(items[0], mapper)
    else Ending(items[1..], mapper)
  }

  function RunEvents(sessionId: string, items: seq<Item>, mapper: Mapper): seq<StreamEvent> {
    [SessionBound(sessionId)] + Body(items, mapper)
  }

  function ReadEvents(sessionId: string, active: bool, items: seq<Item>, mapper: Mapper): seq<StreamEvent> {
    [SessionBound(sessionId), SessionStatus(active)] + Body(items, mapper)
  }

  /** As much of a text as fits. */
  function Fitting(text: string, room: nat): string {
    if |text| <= room then text else text[..room]
  }

  /** A response with room for `room` characters was sent a text: it holds as
      much of it as fitted. */
  ghost predicate Sent(out: string, room: nat, out': string, room': nat, text: string) {
    out' == out + Fitting(text, room) && room' == room - |Fitting(text, room)|
  }

  /** A response holds what it held and then the text, up to the point where
      the connection broke. */
  lemma SentIsCutWhereItBroke(out: string, room: nat, out': string, room': nat, text: string)
    requires Sent(out, room, out', room', text)
    ensures out <= out' <= out + text
    ensures |out'| == |out| + (if |text| <= room then |text| else room) && |out'| + room' == |out| + room
  {
  }

  /** Sending in pieces fills the same room as sending at once. */
  lemma SentThen(out: string, room: nat, out1: string, room1: nat, out2: string, room2: nat, a: string, b: string)
    requires |a| <= room && Sent(out, room, out1, room1, a) && Sent(out1, room1, out2, room2, b)
    ensures Sent(out, room, out2, room2, a + b)
    ensures |b| <= room1 <==> |a + b| <= room
  {
  }

  lemma SentShort(out: string, room: nat, out1: string, room1: nat, a: string, b: string)
    requires |a| > room && Sent(out, room, out1, room1, a)
    ensures Sent(out, room, out1, room1, a + b) && |a + b| > room
  {
  }

  /** A response whose connection takes `room` more characters and then fails,
      possibly in the middle of a frame. */
  class ResponseWriter {
    var out: string
    var room: nat

    constructor (room: nat)
      ensures out == "" && this.room == room
    {
      out, this.room := "", room;
    }

    method Write(text: string) returns (ok: bool)
      modifies this
      ensures ok <==> |text| <= old(room)
      ensures Sent(old(out), old(room), out, room, text)
    {
      ok := |text| <= room;
      var written := if ok then text else text[..room];
      out := out + written;
      room := room - |written|;
    }
  }

  class AgentApiSseWriter {
    const codec: Codec
    const mapper: Mapper

    constructor (codec: Codec, mapper: Mapper)
      ensures this.codec == codec && this.mapper == mapper
    {
      this.codec, this.mapper := codec, mapper;
    }

    method WriteEvent(w: ResponseWriter, e: StreamEvent) returns (ok: bool)
      modifies w
      ensures ok <==> |EventText(codec, e)| <= old(w.room)
      ensures Sent(old(w.out), old(w.room), w.out, w.room, EventText(codec, e))
    {
      ok := w.Write("event: " + Discriminator(e) + "\ndata: " + codec.encode(e) + "\n\n");
    }

    /** The loop over the iterator, with its early exits. */
    method WriteBody(w: ResponseWriter, items: seq<Item>) returns (failed: bool)
      modifies w
      ensures Sent(old(w.out), old(w.room), w.out, w.room, StreamText(codec, Body(items, mapper)))
      ensures !failed <==>
                Ending(items, mapper).None? && |StreamText(codec, Body(items, mapper))| <= old(w.room)
    {
      hide Sent, Fitting, EventText, StreamText;
      ghost var out, room, done := w.out, w.room, "";
      NothingSent(out, room);
      for k := 0 to |items|
        invariant Sent(out, room, w.out, w.room, done) && |done| <= room
        invariant StreamText(codec, Body(items, mapper)) == done + StreamText(codec, Body(items[k..], mapper))
        invariant Ending(items, mapper) == Ending(items[k..], mapper)
      {
        assert items[k..][0] == items[k] && items[k..][1..] == items[k + 1..];
        var trouble := Trouble(items[k], mapper);
        var e := if trouble.Some? then ErrorEvent(trouble.value) else mapper(items[k].value.value).value;
        ghost var rest := Body(items[k..], mapper)[1..];
        StreamTextHead(codec, Body(items[k..], mapper));
        ghost var out1, room1 := w.out, w.room;
        var ok := WriteEvent(w, e);
        SentThen(out, room, out1, room1, w.out, w.room, done, EventText(codec, e));
        Associate(done, EventText(codec, e), StreamText(codec, rest));
        if !ok { SentShort(out, room, w.out, w.room, done + EventText(codec, e), StreamText(codec, rest)); }
        if trouble.Some? || !ok { return true; }
        done := done + EventText(codec, e);
      }
      assert items[|items|..] == [];
      StreamTextHead(codec, [DoneEvent]);
      ghost var out1, room1 := w.out, w.room;
      var ok := WriteEvent(w, DoneEvent);
      SentThen(out, room, out1, room1, w.out, w.room, done, EventText(codec, DoneEvent));
      failed := !ok;
    }

    method StreamAgentRun(w: ResponseWriter, sessionId: string, items: seq<Item>) returns (failed: bool)
      modifies w
      ensures Sent(old(w.out), old(w.room), w.out, w.room, StreamText(codec, RunEvents(sessionId, items, mapper)))
      ensures !failed <==> Ending(items, mapper).None?
                           && |StreamText(codec, RunEvents(sessionId, items, mapper))| <= old(w.room)
    {
      hide Body, Ending, Sent, Fitting, EventText, StreamText;
      ghost var out, room := w.out, w.room;
      var bound := SessionBound(sessionId);
      ghost var rest := StreamText(codec, Body(items, mapper));
      StreamTextHead(codec, RunEvents(sessionId, items, mapper));
      var ok := WriteEvent(w, bound);
      if !ok {
        SentShort(out, room, w.out, w.room, EventText(codec, bound), rest);
        return true;
      }
      ghost var out1, room1 := w.out, w.room;
      failed := WriteBody(w, items);
      SentThen(out, room, out1, room1, w.out, w.room, EventText(codec, bound), rest);
    }

    method StreamSessionRead(w: ResponseWriter, sessionId: string, active: bool, items: seq<Item>)
      returns (failed: bool)
      modifies w
      ensures Sent(old(w.out), old(w.room), w.out, w.room,
                   StreamText(codec, ReadEvents(sessionId, active, items, mapper)))
      ensures !failed <==> Ending(items, mapper).None?
                           && |StreamText(codec, ReadEvents(sessionId, active, items, mapper))| <= old(w.room)
    {
      hide Body, Ending, Sent, Fitting, EventText, StreamText;
      ghost var out, room := w.out, w.room;
      var bound, status := SessionBound(sessionId), SessionStatus(active);
      ghost var rest := StreamText(codec, Body(items, mapper));
      StreamTextHead(codec, ReadEvents(sessionId, active, items, mapper));
      StreamTextHead(codec, [status] + Body(items, mapper));
      assert ReadEvents(sessionId, active, items, mapper)[1..] == [status] + Body(items, mapper);
      assert ([status] + Body(items, mapper))[1..] == Body(items, mapper);
      Associate(EventText(codec, bound), EventText(codec, status), rest);
      var ok := WriteEvent(w, bound);
      if !ok {
        SentShort(out, room, w.out, w.room, EventText(codec, bound), EventText(codec, status) + rest);
        return true;
      }
      ghost var out1, room1 := w.out, w.room;
      ok := WriteEvent(w, status);
      SentThen(out, room, out1, room1, w.out, w.room, EventText(codec, bound), EventText(codec, status));
      if !ok {
        SentShort(out, room, w.out, w.room, EventText(codec, bound) + EventText(codec, status), rest);
        return true;
      }
      ghost var out2, room2 := w.out, w.room;
      failed := WriteBody(w, items);
      SentThen(out, room, out2, room2, w.out, w.room, EventText(codec, bound) + EventText(codec, status), rest);
    }
  }

  lemma NothingSent(out: string, room: nat)
    ensures Sent(out, room, out, room, "")
  {
  }

  lemma Associate(a: string, b: string, c: string)
    ensures a + b + c == a + (b + c)
  {
  }

  lemma StreamTextHead(codec: Codec, events: seq<StreamEvent>)
    requires events != []
    ensures StreamText(codec, events) == EventText(codec, events[0]) + StreamText(codec, events[1..])
    ensures |events| == 1 ==> StreamText(codec, events) == EventText(codec, events[0])
  {
  }

  // ----- The shape of the stream -----

  predicate Closes(e: StreamEvent) {
    e.DoneEvent? || e.StreamError?
  }

  /** The events of the items before the first trouble. */
  function Mapped(items: seq<Item>, mapper: Mapper): seq<StreamEvent> {
    if items == [] || Trouble(items[0], mapper).Some? then []
    else [mapper(items[0].value.value).value] + Mapped(items[1..], mapper)
  }

  /** The body is the mapped events, then one closing event placed last: `done`
      when nothing went wrong, otherwise the first error. */
  lemma {:induction false} BodyEndsOnce(items: seq<Item>, mapper: Mapper)
    ensures Body(items, mapper) == Mapped(items, mapper) + [
              match Ending(items, mapper)
              case None => DoneEvent
              case Some(err) => StreamError(if err == "" then "stream error" else err, None)]
    ensures Ending(items, mapper).None? <==> |Mapped(items, mapper)| == |items|
    decreases |items|
  {
    if items != [] && Trouble(items[0], mapper).None? {
      BodyEndsOnce(items[1..], mapper);
    }
  }

  /** An item that can be written: the request goes on, the iterator yielded
      an event, and it can be mapped. */
  predicate IsWritable(item: Item, mapper: Mapper) {
    item.ctxErr.None? && item.value.Ok? && mapper(item.value.value).Ok?
  }

  /** What is written before the end are the images of the items up to the
      first that cannot be written.  The stream ends with that item's error: a
      request that is over comes before an iterator that failed, and that
      before a failed mapping. */
  lemma {:induction false} EndsAtFirstTrouble(items: seq<Item>, mapper: Mapper)
    ensures var mapped := Mapped(items, mapper);
            && |mapped| <= |items|
            && (forall k :: 0 <= k < |mapped| ==>
                  IsWritable(items[k], mapper) && mapper(items[k].value.value) == Ok(mapped[k]))
            && (|mapped| == |items| ==> Ending(items, mapper).None?)
            && (|mapped| < |items| ==>
                  && var item := items[|mapped|];
                  && !IsWritable(item, mapper)
                  && Ending(items, mapper) == if item.ctxErr.Some? then item.ctxErr
                                              else if item.value.Err? then Some(item.value.error)
                                              else Some(mapper(item.value.value).error))
    decreases |items|
  {
    if items != [] && Trouble(items[0], mapper).None? {
      EndsAtFirstTrouble(items[1..], mapper);
    }
  }
}
