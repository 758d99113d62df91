/** The client's state of a run, folded from stream events, and the transcript
    folded from a stored history
    (apps/sonal-ui/src/lib/agentapi/streamState.ts). */
module StreamReducer {
  import opened Wrappers
  import opened SessionEvents
  import opened StreamEvents

  datatype Entry = Entry(id: string, name: string, args: map<string, Json>, response: Option<map<string, Json>>)

  datatype RunState = RunState(
    sessionId: Option<string>,
    busy: bool,
    text: string,
    error: Option<string>,
    sessionActive: Option<bool>,
    toolCalls: seq<Entry>)

  const INITIAL := RunState(None, true, "", None, None, [])

  datatype Row = UserRow(text: string) | AssistantRow(text: string, toolCalls: seq<Entry>)

  function OrEmpty(m: Option<map<string, Json>>): map<string, Json> {
    if m.Some? then m.value else map[]
  }

  function Parts(ev: AgentEvent): seq<AgentPart> {
    if ev.content.None? then [] else ev.content.value.parts
  }

  predicate FromUser(ev: AgentEvent) {
    ev.content.Some? && ev.content.value.role == Some("user")
  }

  // ----- Tool calls -----

  function Answer(entries: seq<Entry>, id: string, response: map<string, Json>): (out: seq<Entry>)
    ensures |out| == |entries|
    ensures forall k :: 0 <= k < |out| ==>
              out[k] == if entries[k].id == id then entries[k].(response := Some(response)) else entries[k]
  {
    seq(|entries|, k requires 0 <= k < |entries| =>
      if entries[k].id == id then entries[k].(response := Some(response)) else entries[k])
  }

  function ToolStep(entries: seq<Entry>, part: AgentPart): seq<Entry> {
    if part.toolCall.Some? then
      var call := part.toolCall.value;
      entries + [Entry(call.id, call.name, OrEmpty(call.args), None)]
    else if part.toolResult.Some? then
      Answer(entries, part.toolResult.value.id, OrEmpty(part.toolResult.value.response))
    else entries
  }

  function ToolSteps(entries: seq<Entry>, parts: seq<AgentPart>): seq<Entry>
    decreases |parts|
  {
    if parts == [] then entries else ToolSteps(ToolStep(entries, parts[0]), parts[1..])
  }

  method ApplyToolCallParts(state: RunState, ev: AgentEvent) returns (next: RunState)
    ensures next == state.(toolCalls := ToolSteps(state.toolCalls, Parts(ev)))
  {
    var parts := Parts(ev);
    if |parts| == 0 { return state; }
    var toolCalls := state.toolCalls;
    for k := 0 to |parts|
      invariant ToolSteps(toolCalls, parts[k..]) == ToolSteps(state.toolCalls, parts)
    {
      assert parts[k..][1..] == parts[k + 1..];
      var part := parts[k];
      if part.toolCall.Some? {
        var call := part.toolCall.value;
        toolCalls := toolCalls + [Entry(call.id, call.name, OrEmpty(call.args), None)];
      } else if part.toolResult.Some? {
        toolCalls := Answer(toolCalls, part.toolResult.value.id, OrEmpty(part.toolResult.value.response));
      }
    }
    next := state.(toolCalls := toolCalls);
  }

  // ----- Text -----

  predicate IsText(p: AgentPart) {
    p.text.Some? && p.toolCall.None? && p.toolResult.None?
  }

  function JoinTexts(parts: seq<AgentPart>): string {
    if parts == [] then ""
    else (if IsText(parts[0]) then parts[0].text.value else "") + JoinTexts(parts[1..])
  }

  /** Every text of a user event, whatever else a part carries. */
  function JoinAllTexts(parts: seq<AgentPart>): string {
    if parts == [] then ""
    else (if parts[0].text.Some? then parts[0].text.value else "") + JoinAllTexts(parts[1..])
  }

  function TextDelta(ev: AgentEvent): Option<string> {
    if FromUser(ev) || Parts(ev) == [] then None else Some(JoinTexts(Parts(ev)))
  }

  /** A complete event after chunks repeats or extends their text; a chunk is
      appended. */
  function NextText(text: string, ev: AgentEvent): string {
    match TextDelta(ev)
    case None => text
    case Some(delta) =>
      if ev.partial == Some(false) && text != "" && text <= delta then delta else text + delta
  }

  function ApplyAgent(state: RunState, ev: AgentEvent): RunState {
    state.(toolCalls := ToolSteps(state.toolCalls, Parts(ev)), text := NextText(state.text, ev))
  }

  // ----- The reducer -----

  function Apply(state: RunState, e: StreamEvent): RunState {
    match e
    case SessionBound(id) => state.(sessionId := Some(id))
    case SessionStatus(active) => state.(sessionActive := Some(active))
    case Agent(ev) => ApplyAgent(state, ev)
    case StreamError(message, _) => state.(busy := false, error := Some(message))
    case DoneEvent => state.(busy := false)
  }

  function Fold(state: RunState, events: seq<StreamEvent>): RunState
    decreases |events|
  {
    if events == [] then state else Fold(Apply(state, events[0]), events[1..])
  }

  // ----- History -----

  function FlushRow(state: RunState): Option<Row> {
    if state.text == "" && state.toolCalls == [] then None else Some(AssistantRow(state.text, state.toolCalls))
  }

  predicate AllAnswered(entries: seq<Entry>) {
    forall k :: 0 <= k < |entries| ==> entries[k].response.Some?
  }

  /** Emits the scratch turn unless it is empty or waits for a tool. */
  function Flush(state: RunState): (RunState, seq<Row>) {
    if FlushRow(state).Some? && AllAnswered(state.toolCalls)
    then (state.(text := "", toolCalls := []), [FlushRow(state).value]) else (state, [])
  }

  function IdleStep(state: RunState, ev: AgentEvent): (RunState, seq<Row>) {
    var next := ApplyAgent(state, ev);
    if FromUser(ev) then
      var (after, rows) := Flush(next);
      var text := JoinAllTexts(Parts(ev));
      (after, rows + if text != "" then [UserRow(text)] else [])
    else if ev.turnComplete == Some(true) then Flush(next)
    else (next, [])
  }

  method ApplyIdleHistoryAgentEvent(state: RunState, ev: AgentEvent) returns (next: RunState, appended: seq<Row>)
    ensures (next, appended) == IdleStep(state, ev)
  {
    appended := [];
    next := Apply(state, Agent(ev));
    if FromUser(ev) {
      var text := JoinAllTexts(Parts(ev));
      var row := FlushRow(next);
      if row.Some? && AllAnswered(row.value.toolCalls) {
        appended := appended + [row.value];
        assert appended == [row.value];
        next := next.(text := "", toolCalls := []);
      }
      assert appended == Flush(ApplyAgent(state, ev)).1;
      if text != "" { appended := appended + [UserRow(text)]; } else { assert appended + [] == appended; }
      return;
    }
    if ev.turnComplete == Some(true) {
      var row := FlushRow(next);
      if row.Some? && AllAnswered(row.value.toolCalls) {
        appended := appended + [row.value];
        assert appended == [row.value];
        next := next.(text := "", toolCalls := []);
      }
    }
  }

  function IdleFold(state: RunState, events: seq<AgentEvent>): (RunState, seq<Row>)
    decreases |events|
  {
    if events == [] then (state, [])
    else
      var (next, rows) := IdleStep(state, events[0]);
      var (last, more) := IdleFold(next, events[1..]);
      (last, rows + more)
  }

  // ----- What a tool-call list means -----

  /** The last answer to `id` among the parts, or what there was before. */
  function LastAnswer(id: string, parts: seq<AgentPart>, before: Option<map<string, Json>>): Option<map<string, Json>>
    decreases |parts|
  {
    if parts == [] then before
    else if parts[0].toolCall.None? && parts[0].toolResult.Some? && parts[0].toolResult.value.id == id
    then LastAnswer(id, parts[1..], Some(OrEmpty(parts[0].toolResult.value.response)))
    else LastAnswer(id, parts[1..], before)
  }

  /** The calls among the parts, each with the last answer after it. */
  function CallsWithAnswers(parts: seq<AgentPart>): seq<Entry> {
    if parts == [] then []
    else
      (if parts[0].toolCall.Some? then
         var c := parts[0].toolCall.value;
         [Entry(c.id, c.name, OrEmpty(c.args), LastAnswer(c.id, parts[1..], None))]
       else [])
      + CallsWithAnswers(parts[1..])
  }

  function Answered(entries: seq<Entry>, parts: seq<AgentPart>): (out: seq<Entry>)
    ensures |out| == |entries|
    ensures forall k :: 0 <= k < |out| ==>
              out[k] == entries[k].(response := LastAnswer(entries[k].id, parts, entries[k].response))
  {
    seq(|entries|, k requires 0 <= k < |entries| =>
      entries[k].(response := LastAnswer(entries[k].id, parts, entries[k].response)))
  }

  lemma AnsweredAfterCall(entries: seq<Entry>, e: Entry, rest: seq<AgentPart>)
    ensures Answered(entries + [e], rest)
         == Answered(entries, rest) + [e.(response := LastAnswer(e.id, rest, e.response))]
  {
  }

  lemma AnsweredStep(entries: seq<Entry>, parts: seq<AgentPart>)
    requires parts != []
    ensures parts[0].toolCall.Some? ==> Answered(entries, parts) == Answered(entries, parts[1..])
    ensures parts[0].toolCall.None? ==>
              Answered(entries, parts) == Answered(ToolStep(entries, parts[0]), parts[1..])
  {
  }

  /** Folding parts keeps every earlier call with its last answer, and adds
      every call of the parts, in order, with the last answer after it. */
  lemma {:induction false} ToolStepsMeaning(entries: seq<Entry>, parts: seq<AgentPart>)
    ensures ToolSteps(entries, parts) == Answered(entries, parts) + CallsWithAnswers(parts)
    decreases |parts|
  {
    if parts == [] {
      AnsweredByNone(entries);
    } else if parts[0].toolCall.Some? {
      hide LastAnswer, Answered;
      var c := parts[0].toolCall.value;
      var e := Entry(c.id, c.name, OrEmpty(c.args), None);
      ToolStepsMeaning(entries + [e], parts[1..]);
      AnsweredStep(entries, parts);
      AnsweredAfterCall(entries, e, parts[1..]);
      Regroup(Answered(entries, parts), [e.(response := LastAnswer(e.id, parts[1..], None))],
            CallsWithAnswers(parts[1..]));
    } else {
      hide LastAnswer, Answered;
      ToolStepsMeaning(ToolStep(entries, parts[0]), parts[1..]);
      AnsweredStep(entries, parts);
      assert CallsWithAnswers(parts) == [] + CallsWithAnswers(parts[1..]);
    }
  }

  lemma Regroup<T>(a: seq<T>, b: seq<T>, c: seq<T>)
    ensures (a + b) + c == a + (b + c)
  {
  }

  lemma AnsweredByNone(entries: seq<Entry>)
    ensures Answered(entries, []) == entries
  {
  }

  // ----- Conservation of tool calls -----

  function Ids(entries: seq<Entry>): seq<string> {
    if entries == [] then [] else [entries[0].id] + Ids(entries[1..])
  }

  function CallIds(parts: seq<AgentPart>): seq<string> {
    if parts == [] then []
    else (if parts[0].toolCall.Some? then [parts[0].toolCall.value.id] else []) + CallIds(parts[1..])
  }

  function HistoryCallIds(events: seq<AgentEvent>): seq<string> {
    if events == [] then [] else CallIds(Parts(events[0])) + HistoryCallIds(events[1..])
  }

  function RowIds(rows: seq<Row>): seq<string> {
    if rows == [] then []
    else (if rows[0].AssistantRow? then Ids(rows[0].toolCalls) else []) + RowIds(rows[1..])
  }

  lemma {:induction false} IdsConcat(a: seq<Entry>, b: seq<Entry>)
    ensures Ids(a + b) == Ids(a) + Ids(b)
    decreases |a|
  {
    if a == [] {
      assert a + b == b;
    } else {
      assert (a + b)[1..] == a[1..] + b;
      IdsConcat(a[1..], b);
    }
  }

  lemma {:induction false} IdsSame(a: seq<Entry>, b: seq<Entry>)
    requires |a| == |b| && forall k :: 0 <= k < |a| ==> a[k].id == b[k].id
    ensures Ids(a) == Ids(b)
    decreases |a|
  {
    if a != [] { IdsSame(a[1..], b[1..]); }
  }

  lemma {:induction false} CallsHaveCallIds(parts: seq<AgentPart>)
    ensures Ids(CallsWithAnswers(parts)) == CallIds(parts)
    decreases |parts|
  {
    if parts != [] {
      CallsHaveCallIds(parts[1..]);
      if parts[0].toolCall.Some? {
        var c := parts[0].toolCall.value;
        var head := [Entry(c.id, c.name, OrEmpty(c.args), LastAnswer(c.id, parts[1..], None))];
        assert head[1..] == [];
        IdsConcat(head, CallsWithAnswers(parts[1..]));
      } else {
        assert CallsWithAnswers(parts) == CallsWithAnswers(parts[1..]) && CallIds(parts) == CallIds(parts[1..]);
      }
    }
  }

  lemma ToolStepsIds(entries: seq<Entry>, parts: seq<AgentPart>)
    ensures Ids(ToolSteps(entries, parts)) == Ids(entries) + CallIds(parts)
  {
    ToolStepsMeaning(entries, parts);
    IdsConcat(Answered(entries, parts), CallsWithAnswers(parts));
    IdsSame(Answered(entries, parts), entries);
    CallsHaveCallIds(parts);
  }

  lemma {:induction false} RowIdsConcat(a: seq<Row>, b: seq<Row>)
    ensures RowIds(a + b) == RowIds(a) + RowIds(b)
    decreases |a|
  {
    if a == [] {
      assert a + b == b;
    } else {
      assert (a + b)[1..] == a[1..] + b;
      RowIdsConcat(a[1..], b);
    }
  }

  lemma FlushConserves(state: RunState)
    ensures RowIds(Flush(state).1) + Ids(Flush(state).0.toolCalls) == Ids(state.toolCalls)
  {
    if FlushRow(state).Some? && AllAnswered(state.toolCalls) {
      assert [FlushRow(state).value][1..] == [];
    }
  }

  lemma IdleStepConserves(state: RunState, ev: AgentEvent)
    ensures RowIds(IdleStep(state, ev).1) + Ids(IdleStep(state, ev).0.toolCalls)
         == Ids(state.toolCalls) + CallIds(Parts(ev))
  {
    hide ToolSteps, Ids, RowIds, CallIds, Flush, NextText, JoinAllTexts;
    var next := ApplyAgent(state, ev);
    ToolStepsIds(state.toolCalls, Parts(ev));
    FlushConserves(next);
    NoRows();
    if FromUser(ev) {
      var text := JoinAllTexts(Parts(ev));
      var users := if text != "" then [UserRow(text)] else [];
      RowIdsConcat(Flush(next).1, users);
      UserRowsHaveNoIds(text);
      assert RowIds(Flush(next).1) + [] == RowIds(Flush(next).1);
    }
  }

  lemma UserRowsHaveNoIds(text: string)
    ensures RowIds([UserRow(text)]) == []
  {
    assert [UserRow(text)][1..] == [];
  }

  lemma NoRows()
    ensures RowIds([]) == []
  {
  }

  /** Folding any history conserves tool calls: those in emitted rows, then
      those still in the scratch turn, are all calls in the order they
      arrived. */
  lemma {:induction false} HistoryConservesCalls(state: RunState, events: seq<AgentEvent>)
    ensures RowIds(IdleFold(state, events).1) + Ids(IdleFold(state, events).0.toolCalls)
         == Ids(state.toolCalls) + HistoryCallIds(events)
    decreases |events|
  {
    hide IdleStep, Ids, RowIds, CallIds;
    if events == [] {
      assert RowIds([]) == [] by { NoRows(); }
      assert [] + Ids(state.toolCalls) == Ids(state.toolCalls) + [];
    } else {
      var (next, rows) := IdleStep(state, events[0]);
      var (last, more) := IdleFold(next, events[1..]);
      IdleStepConserves(state, events[0]);
      HistoryConservesCalls(next, events[1..]);
      RowIdsConcat(rows, more);
      Regroup(RowIds(rows), RowIds(more), Ids(last.toolCalls));
      Regroup(RowIds(rows), Ids(next.toolCalls), HistoryCallIds(events[1..]));
      Regroup(Ids(state.toolCalls), CallIds(Parts(events[0])), HistoryCallIds(events[1..]));
    }
  }

  /** Every assistant row is non-empty and has all its calls answered. */
  predicate RowOk(row: Row) {
    row.AssistantRow? ==> AllAnswered(row.toolCalls) && (row.text != "" || row.toolCalls != [])
  }

  lemma {:induction false} RowsAreAnswered(state: RunState, events: seq<AgentEvent>)
    ensures forall row :: row in IdleFold(state, events).1 ==> RowOk(row)
    decreases |events|
  {
    if events != [] {
      var (next, rows) := IdleStep(state, events[0]);
      assert forall row :: row in rows ==> RowOk(row);
      RowsAreAnswered(next, events[1..]);
    }
  }

  // ----- Text only grows between flushes -----

  lemma TextGrows(state: RunState, ev: AgentEvent)
    ensures state.text <= ApplyAgent(state, ev).text
  {
  }

  /** One history event either emits the scratch turn, whose text extends what
      there was, and starts afresh, or extends the text. */
  lemma TextIsExtendedOrFlushed(state: RunState, ev: AgentEvent)
    ensures var (next, rows) := IdleStep(state, ev);
            if exists k :: 0 <= k < |rows| && rows[k].AssistantRow?
            then rows[0].AssistantRow? && state.text <= rows[0].text && next.text == "" && next.toolCalls == []
            else state.text <= next.text
  {
    TextGrows(state, ev);
    var (next, rows) := IdleStep(state, ev);
    if FlushRow(ApplyAgent(state, ev)).Some? && AllAnswered(ApplyAgent(state, ev).toolCalls)
       && (FromUser(ev) || ev.turnComplete == Some(true)) {
      assert rows[0].AssistantRow?;
    }
  }

  /** Repeating a complete answer after its chunks adds nothing. */
  lemma FinalCopyIsIgnored(state: RunState, ev: AgentEvent)
    requires ev.partial == Some(false) && TextDelta(ev) == Some(state.text) && state.text != ""
    ensures ApplyAgent(state, ev).text == state.text
  {
  }
}
