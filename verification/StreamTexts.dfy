/** The texts the client shows: what a run says and what a stored history says
    (apps/sonal-ui/src/lib/agentapi/streamState.ts). */
module StreamTexts {
  import opened Wrappers
  import opened SessionEvents
  import opened StreamEvents
  import opened StreamReducer
  import opened SseParser

  /** The texts of the parts, in order; `pure` leaves out parts that also
      carry a call or a result. */
  function Texts(parts: seq<AgentPart>, pure: bool): seq<string> {
    if parts == [] then []
    else
      (if parts[0].text.Some? && (pure ==> parts[0].toolCall.None? && parts[0].toolResult.None?)
       then [parts[0].text.value] else [])
      + Texts(parts[1..], pure)
  }

  predicate IsUsers(ev: AgentEvent) {
    ev.content.Some? && ev.content.value.role == Some("user")
  }

  /** What the agent says in an event. */
  function Said(ev: AgentEvent): string {
    if ev.content.None? || IsUsers(ev) then "" else Concat(Texts(ev.content.value.parts, true))
  }

  /** What the user says in an event. */
  function Asked(ev: AgentEvent): string {
    if IsUsers(ev) then Concat(Texts(ev.content.value.parts, false)) else ""
  }

  lemma ConcatCons(head: seq<string>, rest: seq<string>)
    requires |head| <= 1
    ensures Concat(head + rest) == (if head == [] then "" else head[0]) + Concat(rest)
  {
    if head == [] {
      assert head + rest == rest && "" + Concat(rest) == Concat(rest);
    } else {
      assert (head + rest)[1..] == rest;
    }
  }

  lemma {:induction false} JoinedTexts(parts: seq<AgentPart>)
    ensures JoinTexts(parts) == Concat(Texts(parts, true))
    ensures JoinAllTexts(parts) == Concat(Texts(parts, false))
    decreases |parts|
  {
    hide Concat;
    if parts == [] {
      NoTexts();
    } else {
      JoinedTexts(parts[1..]);
      ConcatCons(if IsText(parts[0]) then [parts[0].text.value] else [], Texts(parts[1..], true));
      ConcatCons(if parts[0].text.Some? then [parts[0].text.value] else [], Texts(parts[1..], false));
    }
  }

  lemma NoTexts()
    ensures Concat([]) == ""
  {
  }

  // ----- One event -----

  /** An event is the whole text so far again, and perhaps more. */
  predicate Repeats(text: string, ev: AgentEvent) {
    ev.partial == Some(false) && text != "" && text <= Said(ev)
  }

  /** A complete event that repeats the text, or extends it, becomes the text.
      What any other event says is appended, and a user's event leaves the
      text alone. */
  lemma EventAddsText(state: RunState, ev: AgentEvent)
    ensures Apply(state, Agent(ev)).text == if Repeats(state.text, ev) then Said(ev) else state.text + Said(ev)
    ensures IsUsers(ev) ==> Apply(state, Agent(ev)).text == state.text
  {
    hide JoinTexts, Texts;
    if ev.content.Some? { JoinedTexts(ev.content.value.parts); }
    NoTexts();
    assert JoinTexts([]) == "" by { NoneJoined(); }
    assert state.text + "" == state.text;
  }

  lemma NoneJoined()
    ensures JoinTexts([]) == ""
  {
  }

  // ----- A run -----

  function SaidBy(events: seq<StreamEvent>): string {
    if events == [] then ""
    else (if events[0].Agent? then Said(events[0].event) else "") + SaidBy(events[1..])
  }

  predicate IsChunk(e: StreamEvent) {
    e.Agent? ==> e.event.partial != Some(false)
  }

  /** Chunks are shown one after the other. */
  lemma {:induction false} ChunksAreJoined(state: RunState, events: seq<StreamEvent>)
    requires forall k :: 0 <= k < |events| ==> IsChunk(events[k])
    ensures Fold(state, events).text == state.text + SaidBy(events)
    decreases |events|
  {
    hide Apply, Said;
    if events == [] {
      assert state.text + "" == state.text;
    } else {
      var said := if events[0].Agent? then Said(events[0].event) else "";
      ChunkAddsText(state, events[0]);
      assert forall k :: 0 <= k < |events[1..]| ==> events[1..][k] == events[k + 1];
      ChunksAreJoined(Apply(state, events[0]), events[1..]);
      assert (state.text + said) + SaidBy(events[1..]) == state.text + (said + SaidBy(events[1..]));
    }
  }

  lemma ChunkAddsText(state: RunState, e: StreamEvent)
    requires IsChunk(e)
    ensures Apply(state, e).text == state.text + if e.Agent? then Said(e.event) else ""
  {
    hide ApplyAgent, Said;
    if e.Agent? { EventAddsText(state, e.event); } else { assert state.text + "" == state.text; }
  }

  /** An answer that comes in chunks and then as a whole is shown once, as the
      whole has it. */
  lemma StreamedAnswerIsShownOnce(state: RunState, chunks: seq<StreamEvent>, whole: AgentEvent)
    requires state.text == "" && forall k :: 0 <= k < |chunks| ==> IsChunk(chunks[k])
    requires whole.partial == Some(false) && SaidBy(chunks) <= Said(whole)
    ensures Apply(Fold(state, chunks), Agent(whole)).text == Said(whole)
  {
    hide Apply, Fold, Said;
    ChunksAreJoined(state, chunks);
    EventAddsText(Fold(state, chunks), whole);
    assert "" + SaidBy(chunks) == SaidBy(chunks) && "" + Said(whole) == Said(whole);
  }

  // ----- A history -----

  /** A turn that can be shown: not empty, and no call without its answer. */
  predicate IsWholeTurn(state: RunState) {
    && (state.text != "" || state.toolCalls != [])
    && forall k :: 0 <= k < |state.toolCalls| ==> state.toolCalls[k].response.Some?
  }

  /** What one history event emits: the turn so far, if the event is a user's
      or completes the turn and no call waits for its answer, and after it the
      user's text.  A turn that is not emitted goes on. */
  lemma RowsOfEvent(state: RunState, ev: AgentEvent)
    ensures var turn := Apply(state, Agent(ev));
            var emits := (IsUsers(ev) || ev.turnComplete == Some(true)) && IsWholeTurn(turn);
            && IdleStep(state, ev).1 == (if emits then [AssistantRow(turn.text, turn.toolCalls)] else [])
                                        + (if Asked(ev) != "" then [UserRow(Asked(ev))] else [])
            && IdleStep(state, ev).0 == if emits then turn.(text := "", toolCalls := []) else turn
  {
    hide ApplyAgent, JoinAllTexts, Texts, Concat;
    if IsUsers(ev) { JoinedTexts(ev.content.value.parts); }
  }

  function UserTexts(rows: seq<Row>): seq<string> {
    if rows == [] then [] else (if rows[0].UserRow? then [rows[0].text] else []) + UserTexts(rows[1..])
  }

  function AskedIn(events: seq<AgentEvent>): seq<string> {
    if events == [] then [] else (if Asked(events[0]) != "" then [Asked(events[0])] else []) + AskedIn(events[1..])
  }

  function AssistantText(rows: seq<Row>): string {
    if rows == [] then "" else (if rows[0].AssistantRow? then rows[0].text else "") + AssistantText(rows[1..])
  }

  /** What an event says without what it repeats. */
  function Addition(text: string, ev: AgentEvent): string {
    if Repeats(text, ev) then Said(ev)[|text|..] else Said(ev)
  }

  /** What the events of a history add to the text. */
  function Added(state: RunState, events: seq<AgentEvent>): string
    decreases |events|
  {
    if events == [] then ""
    else Addition(state.text, events[0]) + Added(IdleStep(state, events[0]).0, events[1..])
  }

  lemma RowsCons(rows: seq<Row>)
    requires rows != []
    ensures UserTexts(rows) == (if rows[0].UserRow? then [rows[0].text] else []) + UserTexts(rows[1..])
    ensures AssistantText(rows) == (if rows[0].AssistantRow? then rows[0].text else "") + AssistantText(rows[1..])
  {
  }

  lemma {:induction false} TextsConcat(a: seq<Row>, b: seq<Row>)
    ensures UserTexts(a + b) == UserTexts(a) + UserTexts(b)
    ensures AssistantText(a + b) == AssistantText(a) + AssistantText(b)
    decreases |a|
  {
    hide UserTexts, AssistantText;
    if a == [] {
      OneRow(UserRow(""));
      assert a + b == b && "" + AssistantText(b) == AssistantText(b) && [] + UserTexts(b) == UserTexts(b);
    } else {
      assert (a + b)[0] == a[0] && (a + b)[1..] == a[1..] + b;
      RowsCons(a);
      RowsCons(a + b);
      TextsConcat(a[1..], b);
      Regroup(if a[0].AssistantRow? then a[0].text else "", AssistantText(a[1..]), AssistantText(b));
      Regroup(if a[0].UserRow? then [a[0].text] else [], UserTexts(a[1..]), UserTexts(b));
    }
  }

  lemma StepKeepsTexts(state: RunState, ev: AgentEvent)
    ensures UserTexts(IdleStep(state, ev).1) == if Asked(ev) != "" then [Asked(ev)] else []
    ensures AssistantText(IdleStep(state, ev).1) + IdleStep(state, ev).0.text
         == state.text + Addition(state.text, ev)
  {
    hide Apply, IdleStep, Said, Asked, IsWholeTurn, IsUsers;
    RowsOfEvent(state, ev);
    EventAddsText(state, ev);
    var turn := Apply(state, Agent(ev));
    var emits := (IsUsers(ev) || ev.turnComplete == Some(true)) && IsWholeTurn(turn);
    OneRow(AssistantRow(turn.text, turn.toolCalls));
    OneRow(UserRow(Asked(ev)));
    TextsConcat(if emits then [AssistantRow(turn.text, turn.toolCalls)] else [],
                    if Asked(ev) != "" then [UserRow(Asked(ev))] else []);
    assert turn.text + "" == turn.text && "" + turn.text == turn.text;
  }

  lemma OneRow(row: Row)
    ensures UserTexts([row]) == if row.UserRow? then [row.text] else []
    ensures AssistantText([row]) == if row.AssistantRow? then row.text else ""
    ensures UserTexts([]) == [] && AssistantText([]) == ""
  {
    assert [row][1..] == [];
    if row.AssistantRow? { assert row.text + "" == row.text; }
  }

  /** A history folded into rows keeps every text: the user rows are the
      non-empty user messages in order, and the texts of the assistant rows,
      followed by the text still waiting, are all that was said. */
  lemma {:induction false} HistoryConservesTexts(state: RunState, events: seq<AgentEvent>)
    ensures UserTexts(IdleFold(state, events).1) == AskedIn(events)
    ensures AssistantText(IdleFold(state, events).1) + IdleFold(state, events).0.text
         == state.text + Added(state, events)
    decreases |events|
  {
    hide IdleStep, UserTexts, AssistantText, Addition, Asked;
    if events == [] {
      OneRow(UserRow(""));
      assert "" + state.text == state.text + "";
    } else {
      var (next, rows) := IdleStep(state, events[0]);
      var (last, more) := IdleFold(next, events[1..]);
      StepKeepsTexts(state, events[0]);
      HistoryConservesTexts(next, events[1..]);
      TextsConcat(rows, more);
      Regroup(AssistantText(rows), AssistantText(more), last.text);
      Regroup(AssistantText(rows), next.text, Added(next, events[1..]));
      Regroup(state.text, Addition(state.text, events[0]), Added(next, events[1..]));
    }
  }
}
