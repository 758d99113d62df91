/** What an ACP exchange carries over, and why one fails
    (runtime/internal/acpstdio/opencode_acp_client.go). */
module AcpContents {
  import opened Wrappers
  import opened Text
  import opened SessionEvents
  import opened AcpClient

  // ----- Lines -----

  /** A blank line anywhere makes no difference. */
  lemma {:induction false} BlankLinesAreSkipped(before: seq<Line>, after: seq<Line>)
    ensures Messages(before + [Blank] + after) == Messages(before + after)
    decreases |before|
  {
    if before == [] {
      assert before + [Blank] + after == [Blank] + after && before + after == after;
      MessagesCons([Blank] + after);
      assert ([Blank] + after)[1..] == after;
    } else {
      assert (before + [Blank] + after)[1..] == before[1..] + [Blank] + after;
      assert (before + after)[1..] == before[1..] + after;
      BlankLinesAreSkipped(before[1..], after);
    }
  }

  /** Lines that are not blank are messages, each as it is. */
  lemma {:induction false} OtherLinesAreMessages(lines: seq<Line>)
    requires Blank !in lines
    ensures Messages(lines) == lines
    decreases |lines|
  {
    if lines != [] {
      assert lines == [lines[0]] + lines[1..];
      OtherLinesAreMessages(lines[1..]);
    }
  }

  // ----- A successful exchange -----

  predicate IsSessionUpdate(line: Line) {
    line.Message? && line.envelope.id.None? && line.envelope.methodName == "session/update"
  }

  /** The parameters of the session updates notified, in order. */
  function UpdateParams(msgs: seq<Line>): seq<Option<Json>> {
    if msgs == [] then []
    else (if IsSessionUpdate(msgs[0]) then [msgs[0].envelope.params] else []) + UpdateParams(msgs[1..])
  }

  /** The text is the string field of the object, without the blanks around
      it, and not empty. */
  ghost predicate IsFieldOf(text: string, value: Option<Json>, key: string) {
    && text != "" && value.Some? && value.value.JObject?
    && key in value.value.fields && value.value.fields[key].JString?
    && IsTrimOf(text, value.value.fields[key].s)
  }

  ghost predicate Carries(update: Update, params: Option<Json>) {
    && IsFieldOf(update.sessionId, params, "sessionId")
    && "update" in params.value.fields && update.payload == params.value.fields["update"]
    && IsFieldOf(update.updateType, Some(update.payload), "type")
  }

  lemma FieldIsText(fields: map<string, Json>, key: string)
    requires StringField(fields, key) != ""
    ensures IsFieldOf(StringField(fields, key), Some(JObject(fields)), key)
  {
    TrimSpaceTrims(fields[key].s);
  }

  lemma ParsedCarries(params: Option<Json>)
    requires WellFormedUpdate(params)
    ensures ParseSessionUpdate(params).Ok? && Carries(ParseSessionUpdate(params).value, params)
  {
    hide IsFieldOf, WellFormedUpdate, StringField;
    ParsesIff(params);
    FieldIsText(params.value.fields, "sessionId");
    FieldIsText(params.value.fields["update"].fields, "type");
  }

  lemma {:induction false} UpdatesCarry(msgs: seq<Line>)
    requires Notifications(msgs, true)
    ensures |UpdatesOf(msgs)| == |UpdateParams(msgs)|
    ensures forall k :: 0 <= k < |UpdatesOf(msgs)| ==> Carries(UpdatesOf(msgs)[k], UpdateParams(msgs)[k])
    decreases |msgs|
  {
    hide Carries, WellFormedUpdate, ParseSessionUpdate;
    if msgs != [] {
      assert forall k :: 0 <= k < |msgs[1..]| ==> msgs[1..][k] == msgs[k + 1];
      UpdatesCarry(msgs[1..]);
      if IsUpdate(msgs[0]) { ParsedCarries(msgs[0].envelope.params); }
    }
  }

  /** The three requests of a session. */
  function Requests(request: LaunchRequest, sessionId: string): seq<Request> {
    [Request(1, "initialize", JObject(map["protocolVersion" := JNumber("1")])),
     Request(2, "session/new",
       JObject(map["cwd" := JString(request.cwd), "mcpServers" := JArray(request.mcpServers)])),
     Request(3, "session/prompt", JObject(map[
       "sessionId" := JString(sessionId),
       "prompt" := JArray([JObject(map["type" := JString("text"), "text" := JString(request.prompt)])])]))]
  }

  /** On a transcript the launch has the session id of the second answer, the
      result of the third, and one update for each session update notified
      before it, in order, with its session id, type and payload.  The requests
      written ask for the protocol version, the directory and servers of the
      request, and its prompt in that session. */
  lemma ExchangeCarries(msgs: seq<Line>, request: LaunchRequest, outlet: Outlet, a: nat, b: nat, c: nat)
    requires Transcript(msgs, a, b, c) && AllSent(outlet)
    ensures var e := Exchanged(msgs, request, outlet);
            && e.result.Ok?
            && var launch, params := e.result.value, UpdateParams(msgs[b + 1..c]);
               && IsFieldOf(launch.sessionId, msgs[b].envelope.result, "sessionId")
               && Some(launch.promptResult) == msgs[c].envelope.result
               && |launch.updates| == |params|
               && (forall k :: 0 <= k < |params| ==> Carries(launch.updates[k], params[k]))
               && e.written == Requests(request, launch.sessionId)
  {
    hide Exchanged, UpdatesOf, StringField, IsFieldOf, Carries, WellFormedUpdate, UpdateParams;
    TranscriptIsAccepted(msgs, request, outlet, a, b, c);
    HasTextIff(msgs[b].envelope.result.value.fields, "sessionId");
    FieldIsText(msgs[b].envelope.result.value.fields, "sessionId");
    assert msgs[b + 1..][..c - b - 1] == msgs[b + 1..c];
    UpdatesCarry(msgs[b + 1..c]);
  }

  // ----- Numbers as text -----

  /** The number that decimal digits stand for. */
  function NumberOf(digits: string): int {
    if digits == "" then 0
    else 10 * NumberOf(digits[..|digits| - 1]) + (digits[|digits| - 1] as int - '0' as int)
  }

  lemma {:induction false} DecimalIsItsNumber(n: nat)
    ensures NumberOf(Decimal(n)) == n
  {
    if n >= 10 {
      DecimalIsItsNumber(n / 10);
      assert Decimal(n)[..|Decimal(n)| - 1] == Decimal(n / 10);
    } else {
      assert Decimal(n)[..0] == "";
    }
  }

  /** No id counts as the number of two requests. */
  lemma IdsTellRequestsApart(id: Json, m: nat, n: nat)
    requires m > 0 && n > 0 && NormalizeId(id) == Decimal(m) && NormalizeId(id) == Decimal(n)
    ensures m == n
  {
    DecimalIsItsNumber(m);
    DecimalIsItsNumber(n);
  }

  // ----- A call that fails -----

  /** The fault of parameters that are no well-formed update: the first thing
      missing. */
  lemma UpdateFault(params: Option<Json>)
    requires !WellFormedUpdate(params)
    ensures ParseSessionUpdate(params).Err?
    ensures var fault := ParseSessionUpdate(params).error;
            if params.None? || !params.value.JObject? then fault == NotAnObject
            else if !HasText(params, "sessionId") then fault == MissingSessionId
            else if "update" !in params.value.fields then fault == MissingUpdate
            else if !params.value.fields["update"].JObject? then fault == NotAnObject
            else fault == MissingType
  {
    hide HasText, StringField;
    ParsesIff(params);
    ExtractsIff(params);
  }

  /** The text under which an id is reported; zero has one form. */
  predicate IsTextOf(text: string, id: Json) {
    && (id.JNull? ==> text == "0")
    && (id.JNumber? ==> text == if id.text == "-0" then "0" else id.text)
    && (id.JString? ==> text == id.s)
  }

  lemma IdIsReported(id: Json)
    ensures IsTextOf(NormalizeId(id), id)
  {
  }

  /** Why a line that a call cannot take ends it. */
  ghost predicate IsCause(cause: Failure, line: Line, id: nat) {
    match line
    case Cancelled => cause == Cancellation
    case ReadBroke => cause == BrokenInput
    case Garbage => cause == Undecodable
    case Blank => cause == Undecodable
    case Message(message) =>
      if message.id.None? then ParseSessionUpdate(message.params) == Err(cause)
      else if !IsId(message.id.value, id) then cause.UnexpectedId? && IsTextOf(cause.id, message.id.value)
      else if message.error.Some? then cause == ApiFailure(message.error.value)
      else cause == MissingResult
  }

  /** A call ends at the first message that is neither a notification it can
      take nor its answer, because of that message; without one and without an
      answer it meets the end. */
  lemma {:induction false} AwaitFailsAt(msgs: seq<Line>, k: nat, id: nat, collects: bool)
    requires id > 0 && k <= |msgs| && Notifications(msgs[..k], collects)
    requires k < |msgs| ==> !Notifications([msgs[k]], collects) && !GoodAnswer(msgs[k], id)
    ensures Await(msgs, id, collects).result.Err?
    ensures var cause := Await(msgs, id, collects).result.error;
            if k == |msgs| then cause == EndOfInput else IsCause(cause, msgs[k], id)
    decreases |msgs|
  {
    hide WellFormedUpdate, ParseSessionUpdate, NormalizeId, Decimal;
    if k == 0 {
      if msgs != [] && msgs[0].Message? {
        if msgs[0].envelope.id.Some? {
          IdMatchesIff(msgs[0].envelope.id.value, id);
          IdIsReported(msgs[0].envelope.id.value);
        }
        ParsesIff(msgs[0].envelope.params);
        assert [msgs[0]][0] == msgs[0];
      }
    } else {
      assert msgs[..k][0] == msgs[0];
      assert msgs[1..][..k - 1] == msgs[..k][1..];
      assert k < |msgs| ==> msgs[1..][k - 1] == msgs[k];
      AwaitFailsAt(msgs[1..], k - 1, id, collects);
      AwaitSkips(msgs, id, collects);
    }
  }
}
