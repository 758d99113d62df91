/** The client side of an ACP exchange over standard input and output: three
    JSON-RPC 2.0 calls, with notifications in between
    (runtime/internal/acpstdio/opencode_acp_client.go). */
module AcpClient {
  import opened Wrappers
  import opened Text
  import opened SessionEvents

  // ----- What the agent process prints -----

  datatype ApiError = ApiError(code: int, message: string)

  /** A decoded message.  `id: null` is a present id, `error: null` an absent
      error. */
  datatype Envelope = Envelope(
    id: Option<Json>, methodName: string, params: Option<Json>, result: Option<Json>, error: Option<ApiError>)

  /** What an attempt to read a line meets.  A cancellation is where it is
      noticed, before the next line. */
  datatype Line = Blank | Garbage | Message(envelope: Envelope) | Cancelled | ReadBroke

  /** What an attempt to write a request meets. */
  datatype Writing = Sent | CancelledBefore | WriteBroke

  /** The outcome of writing the request of each number. */
  type Outlet = nat -> Writing

  datatype Request = Request(id: nat, methodName: string, params: Json)

  datatype Update = Update(sessionId: string, updateType: string, payload: Json)

  datatype LaunchResult = LaunchResult(sessionId: string, promptResult: Json, updates: seq<Update>)

  datatype Failure =
    | EndOfInput
    | Undecodable
    | Cancellation
    | BrokenInput
    | BrokenOutput
    | UnexpectedId(id: string)
    | ApiFailure(error: ApiError)
    | MissingResult
    | NotAnObject
    | MissingSessionId
    | MissingUpdate
    | MissingType

  /** The operation that failed, and why; the kind is always "protocol". */
  datatype LaunchError = LaunchError(op: string, cause: Failure)

  // ----- Reading values -----

  function Decimal(n: nat): (s: string)
    ensures s != "" && forall k :: 0 <= k < |s| ==> '0' <= s[k] <= '9'
  {
    var digit := ('0' as int + n % 10) as char;
    if n < 10 then [digit] else Decimal(n / 10) + [digit]
  }

  /** An id as text: null reads as the integer zero, a string as itself, an
      integer in decimal.  Of any other value's raw text only the first
      character matters here: it is not a digit. */
  function NormalizeId(id: Json): string {
    match id
    case JNull => "0"
    case JNumber(text) => if text == "-0" then "0" else text
    case JString(s) => s
    case JBool(b) => if b then "true" else "false"
    case JArray(_) => "["
    case JObject(_) => "{"
  }

  predicate IsId(id: Json, n: nat) {
    id == JNumber(Decimal(n)) || id == JString(Decimal(n))
  }

  lemma IdMatchesIff(id: Json, n: nat)
    requires n > 0
    ensures NormalizeId(id) == Decimal(n) <==> IsId(id, n)
  {
    DecimalPositive(n);
    assert Decimal(n)[0] != 't' && Decimal(n)[0] != 'f' && Decimal(n)[0] != '[' && Decimal(n)[0] != '{';
    assert "true"[0] == 't' && "false"[0] == 'f' && "["[0] == '[' && "{"[0] == '{' && "-0"[0] == '-';
  }

  lemma {:induction false} DecimalPositive(n: nat)
    requires n > 0
    ensures Decimal(n)[0] != '0'
  {
    if n >= 10 { DecimalPositive(n / 10); }
  }

  function Fields(value: Option<Json>): Result<map<string, Json>, Failure> {
    match value
    case Some(JObject(fields)) => Ok(fields)
    case _ => Err(NotAnObject)
  }

  function StringField(fields: map<string, Json>, key: string): string {
    if key in fields && fields[key].JString? then TrimSpace(fields[key].s) else ""
  }

  function ExtractSessionId(result: Option<Json>): Result<string, Failure> {
    match Fields(result)
    case Err(e) => Err(e)
    case Ok(fields) =>
      if StringField(fields, "sessionId") == "" then Err(MissingSessionId) else Ok(StringField(fields, "sessionId"))
  }

  function ParseSessionUpdate(params: Option<Json>): Result<Update, Failure> {
    match ExtractSessionId(params)
    case Err(e) => Err(e)
    case Ok(sessionId) =>
      var fields := params.value.fields;
      if "update" !in fields then Err(MissingUpdate)
      else match Fields(Some(fields["update"]))
           case Err(e) => Err(e)
           case Ok(payload) =>
             if StringField(payload, "type") == "" then Err(MissingType)
             else Ok(Update(sessionId, StringField(payload, "type"), fields["update"]))
  }

  /** A string field that is not blank. */
  ghost predicate HasText(value: Option<Json>, key: string) {
    && value.Some? && value.value.JObject?
    && var fields := value.value.fields;
       key in fields && fields[key].JString? && exists k :: 0 <= k < |fields[key].s| && !IsSpace(fields[key].s[k])
  }

  ghost predicate WellFormedUpdate(params: Option<Json>) {
    && HasText(params, "sessionId")
    && "update" in params.value.fields
    && HasText(Some(params.value.fields["update"]), "type")
  }

  lemma HasTextIff(fields: map<string, Json>, key: string)
    ensures HasText(Some(JObject(fields)), key) <==> StringField(fields, key) != ""
  {
    if key in fields && fields[key].JString? { TrimSpaceEmptyIff(fields[key].s); }
  }

  lemma ExtractsIff(result: Option<Json>)
    ensures ExtractSessionId(result).Ok? <==> HasText(result, "sessionId")
  {
    if result.Some? && result.value.JObject? { HasTextIff(result.value.fields, "sessionId"); }
  }

  lemma ParsesIff(params: Option<Json>)
    ensures ParseSessionUpdate(params).Ok? <==> WellFormedUpdate(params)
  {
    ExtractsIff(params);
    if ExtractSessionId(params).Ok? {
      var fields := params.value.fields;
      if "update" in fields && fields["update"].JObject? { HasTextIff(fields["update"].fields, "type"); }
    }
  }

  // ----- Waiting for an answer -----

  /** Blank lines are skipped wherever they are. */
  function Messages(lines: seq<Line>): seq<Line> {
    if lines == [] then []
    else (if lines[0].Blank? then [] else [lines[0]]) + Messages(lines[1..])
  }

  predicate IsNotification(line: Line) {
    line.Message? && line.envelope.id.None?
  }

  predicate IsUpdate(line: Line) {
    IsNotification(line) && line.envelope.methodName == "session/update"
  }

  function ReadFailure(line: Line): Failure
    requires !line.Message?
  {
    match line case Cancelled => Cancellation case ReadBroke => BrokenInput case _ => Undecodable
  }

  function WriteFailure(w: Writing): Failure
    requires !w.Sent?
  {
    if w.CancelledBefore? then Cancellation else BrokenOutput
  }

  datatype Reply = Reply(result: Result<Envelope, Failure>, updates: seq<Update>, rest: seq<Line>)

  function Judge(envelope: Envelope, id: nat): Result<Envelope, Failure>
    requires envelope.id.Some?
  {
    if NormalizeId(envelope.id.value) != Decimal(id) then Err(UnexpectedId(NormalizeId(envelope.id.value)))
    else if envelope.error.Some? then Err(ApiFailure(envelope.error.value))
    else if envelope.result.None? then Err(MissingResult)
    else Ok(envelope)
  }

  /** What a call makes of the messages still to come; `collects` tells
      whether it looks at the session updates. */
  function Await(msgs: seq<Line>, id: nat, collects: bool): Reply {
    if msgs == [] then Reply(Err(EndOfInput), [], [])
    else if !msgs[0].Message? then Reply(Err(ReadFailure(msgs[0])), [], msgs[1..])
    else
      var envelope := msgs[0].envelope;
      if envelope.id.Some? then Reply(Judge(envelope, id), [], msgs[1..])
      else if collects && envelope.methodName == "session/update" then
        match ParseSessionUpdate(envelope.params)
        case Err(e) => Reply(Err(e), [], msgs[1..])
        case Ok(update) => Before([update], Await(msgs[1..], id, collects))
      else Await(msgs[1..], id, collects)
  }

  function Before(updates: seq<Update>, reply: Reply): Reply {
    reply.(updates := updates + reply.updates)
  }

  lemma BeforeTwice(first: seq<Update>, second: seq<Update>, reply: Reply)
    ensures Before(first, Before(second, reply)) == Before(first + second, reply)
  {
    assert first + (second + reply.updates) == first + second + reply.updates;
  }

  /** The updates notified, in order. */
  function UpdatesOf(msgs: seq<Line>): seq<Update> {
    if msgs == [] then []
    else
      (if IsUpdate(msgs[0]) && ParseSessionUpdate(msgs[0].envelope.params).Ok?
       then [ParseSessionUpdate(msgs[0].envelope.params).value] else []) + UpdatesOf(msgs[1..])
  }

  ghost predicate GoodAnswer(line: Line, id: nat) {
    && line.Message? && line.envelope.id.Some? && IsId(line.envelope.id.value, id)
    && line.envelope.error.None? && line.envelope.result.Some?
  }

  ghost predicate Notifications(msgs: seq<Line>, collects: bool) {
    forall k :: 0 <= k < |msgs| ==>
      IsNotification(msgs[k]) && (collects && IsUpdate(msgs[k]) ==> WellFormedUpdate(msgs[k].envelope.params))
  }

  /** Message `k` is the good answer and everything before it a notification
      that can be taken. */
  ghost predicate AnsweredAt(msgs: seq<Line>, k: nat, id: nat, collects: bool) {
    k < |msgs| && Notifications(msgs[..k], collects) && GoodAnswer(msgs[k], id)
  }

  lemma JudgesIff(line: Line, id: nat)
    requires id > 0 && line.Message? && line.envelope.id.Some?
    ensures Judge(line.envelope, id).Ok? <==> GoodAnswer(line, id)
  {
    IdMatchesIff(line.envelope.id.value, id);
  }

  lemma AwaitSkips(msgs: seq<Line>, id: nat, collects: bool)
    requires msgs != [] && IsNotification(msgs[0])
    requires collects && IsUpdate(msgs[0]) ==> WellFormedUpdate(msgs[0].envelope.params)
    ensures Await(msgs, id, collects)
         == Before(if collects then UpdatesOf([msgs[0]]) else [], Await(msgs[1..], id, collects))
  {
    hide ParseSessionUpdate, WellFormedUpdate, Judge;
    ParsesIff(msgs[0].envelope.params);
    assert [msgs[0]][1..] == [];
  }

  lemma UpdatesOfCons(line: Line, rest: seq<Line>)
    ensures UpdatesOf([line] + rest) == UpdatesOf([line]) + UpdatesOf(rest)
    ensures UpdatesOf([]) == []
  {
    hide ParseSessionUpdate;
    assert ([line] + rest)[1..] == rest && [line][1..] == [];
  }

  /** Where the answer is, the call returns it, with the updates before it,
      and leaves what follows. */
  lemma {:induction false} AwaitTakes(msgs: seq<Line>, k: nat, id: nat, collects: bool)
    requires id > 0 && AnsweredAt(msgs, k, id, collects)
    ensures Await(msgs, id, collects)
         == Reply(Ok(msgs[k].envelope), if collects then UpdatesOf(msgs[..k]) else [], msgs[k + 1..])
    decreases |msgs|
  {
    hide WellFormedUpdate, UpdatesOf, GoodAnswer, IsUpdate, Judge;
    var rest := msgs[1..];
    if k == 0 {
      hide Notifications;
      GoodIsPresent(msgs[0], id);
      JudgesIff(msgs[0], id);
      AwaitAnswer(msgs, id, collects);
      UpdatesOfCons(msgs[0], []);
      assert msgs[..0] == [];
    } else {
      hide Await;
      assert msgs[..k][0] == msgs[0];
      assert rest[..k - 1] == msgs[..k][1..] && rest[k..] == msgs[k + 1..];
      AwaitTakes(rest, k - 1, id, collects);
      AwaitSkips(msgs, id, collects);
      UpdatesOfCons(msgs[0], rest[..k - 1]);
      assert msgs[..k] == [msgs[0]] + rest[..k - 1];
    }
  }

  lemma GoodIsPresent(line: Line, id: nat)
    requires GoodAnswer(line, id)
    ensures line.Message? && line.envelope.id.Some?
  {
  }

  lemma AwaitAnswer(msgs: seq<Line>, id: nat, collects: bool)
    requires msgs != [] && msgs[0].Message? && msgs[0].envelope.id.Some?
    requires Judge(msgs[0].envelope, id).Ok?
    ensures Await(msgs, id, collects) == Reply(Ok(msgs[0].envelope), [], msgs[1..])
  {
  }

  /** A call that succeeds has found its answer. */
  lemma {:induction false} AwaitFinds(msgs: seq<Line>, id: nat, collects: bool) returns (k: nat)
    requires id > 0 && Await(msgs, id, collects).result.Ok?
    ensures AnsweredAt(msgs, k, id, collects)
    decreases |msgs|
  {
    hide ParseSessionUpdate, WellFormedUpdate, Decimal, NormalizeId;
    if msgs[0].envelope.id.Some? {
      JudgesIff(msgs[0], id);
      k := 0;
    } else {
      var j := AwaitFinds(msgs[1..], id, collects);
      k := j + 1;
      ParsesIff(msgs[0].envelope.params);
      assert msgs[..k] == [msgs[0]] + msgs[1..][..j];
    }
  }

  // ----- The exchange -----

  datatype LaunchRequest = LaunchRequest(cwd: string, prompt: string, mcpServers: seq<Json>)

  function InitializeRequest(): Request {
    Request(1, "initialize", JObject(map["protocolVersion" := JNumber("1")]))
  }

  function NewSessionRequest(request: LaunchRequest): Request {
    Request(2, "session/new",
      JObject(map["cwd" := JString(request.cwd), "mcpServers" := JArray(request.mcpServers)]))
  }

  function PromptRequest(request: LaunchRequest, sessionId: string): Request {
    Request(3, "session/prompt", JObject(map[
      "sessionId" := JString(sessionId),
      "prompt" := JArray([JObject(map["type" := JString("text"), "text" := JString(request.prompt)])])]))
  }

  /** The result and the requests written on the way. */
  datatype Exchange = Exchange(result: Result<LaunchResult, LaunchError>, written: seq<Request>)

  function Exchanged(msgs: seq<Line>, request: LaunchRequest, outlet: Outlet): Exchange {
    if !outlet(1).Sent? then Exchange(Err(LaunchError("initialize", WriteFailure(outlet(1)))), [])
    else
      var sent := [InitializeRequest()];
      var reply := Await(msgs, 1, false);
      if reply.result.Err? then Exchange(Err(LaunchError("initialize", reply.result.error)), sent)
      else if Fields(reply.result.value.result).Err? then Exchange(Err(LaunchError("initialize", NotAnObject)), sent)
      else NewSessionExchanged(reply.rest, request, outlet, sent)
  }

  function NewSessionExchanged(
    msgs: seq<Line>, request: LaunchRequest, outlet: Outlet, before: seq<Request>): Exchange
  {
    if !outlet(2).Sent? then Exchange(Err(LaunchError("session/new", WriteFailure(outlet(2)))), before)
    else
      var sent := before + [NewSessionRequest(request)];
      var reply := Await(msgs, 2, false);
      if reply.result.Err? then Exchange(Err(LaunchError("session/new", reply.result.error)), sent)
      else
        match ExtractSessionId(reply.result.value.result)
        case Err(e) => Exchange(Err(LaunchError("session/new", e)), sent)
        case Ok(sessionId) => PromptExchanged(reply.rest, request, outlet, sent, sessionId)
  }

  function PromptExchanged(msgs: seq<Line>, request: LaunchRequest, outlet: Outlet, before: seq<Request>,
                           sessionId: string): Exchange {
    if !outlet(3).Sent? then Exchange(Err(LaunchError("session/prompt", WriteFailure(outlet(3)))), before)
    else
      var sent := before + [PromptRequest(request, sessionId)];
      var reply := Await(msgs, 3, true);
      match reply.result
      case Err(e) => Exchange(Err(LaunchError("session/prompt", e)), sent)
      case Ok(envelope) =>
        if envelope.result.None? then Exchange(Err(LaunchError("session/prompt", MissingResult)), sent)
        else Exchange(Ok(LaunchResult(sessionId, envelope.result.value, reply.updates)), sent)
  }

  predicate AllSent(outlet: Outlet) {
    outlet(1).Sent? && outlet(2).Sent? && outlet(3).Sent?
  }

  /** Notifications and a good answer 1 that is an object; notifications and a
      good answer 2 with a session id; notifications whose session updates are
      well formed and a good answer 3. */
  ghost predicate Transcript(msgs: seq<Line>, a: nat, b: nat, c: nat) {
    && a < b < c < |msgs|
    && AnsweredAt(msgs, a, 1, false) && msgs[a].envelope.result.value.JObject?
    && AnsweredAt(msgs[a + 1..], b - a - 1, 2, false) && HasText(msgs[b].envelope.result, "sessionId")
    && AnsweredAt(msgs[b + 1..], c - b - 1, 3, true)
  }

  /** A transcript is accepted.  The session id is the one of the second
      answer, the result the one of the third, and the updates are those of
      the third phase, in wire order. */
  lemma TranscriptIsAccepted(msgs: seq<Line>, request: LaunchRequest, outlet: Outlet, a: nat, b: nat, c: nat)
    requires Transcript(msgs, a, b, c) && AllSent(outlet)
    ensures var sessionId := StringField(msgs[b].envelope.result.value.fields, "sessionId");
            Exchanged(msgs, request, outlet) == Exchange(
              Ok(LaunchResult(sessionId, msgs[c].envelope.result.value, UpdatesOf(msgs[b + 1..c]))),
              [InitializeRequest(), NewSessionRequest(request), PromptRequest(request, sessionId)])
  {
    hide Await, UpdatesOf, HasText, StringField, InitializeRequest, NewSessionRequest, PromptRequest;
    AwaitTakes(msgs, a, 1, false);
    var rest1, rest2 := msgs[a + 1..], msgs[b + 1..];
    AwaitTakes(rest1, b - a - 1, 2, false);
    assert rest1[b - a - 1] == msgs[b] && rest1[b - a..] == rest2;
    ExtractsIff(msgs[b].envelope.result);
    AwaitTakes(rest2, c - b - 1, 3, true);
    assert rest2[c - b - 1] == msgs[c] && rest2[..c - b - 1] == msgs[b + 1..c];
  }

  lemma AcceptedHasTranscript(msgs: seq<Line>, request: LaunchRequest, outlet: Outlet)
    returns (a: nat, b: nat, c: nat)
    requires Exchanged(msgs, request, outlet).result.Ok?
    ensures AllSent(outlet) && Transcript(msgs, a, b, c)
  {
    hide Await, HasText, InitializeRequest, NewSessionRequest, PromptRequest, UpdatesOf, AnsweredAt, StringField;
    a := AwaitFinds(msgs, 1, false);
    AwaitLeaves(msgs, a, 1, false);
    var rest1 := msgs[a + 1..];
    var j := AwaitFinds(rest1, 2, false);
    AwaitLeaves(rest1, j, 2, false);
    b := a + 1 + j;
    var rest2 := msgs[b + 1..];
    assert rest1[j] == msgs[b] && rest1[j + 1..] == rest2;
    ExtractsIff(msgs[b].envelope.result);
    var k := AwaitFinds(rest2, 3, true);
    AwaitLeaves(rest2, k, 3, true);
    c := b + 1 + k;
    assert rest2[k] == msgs[c] && b - a - 1 == j && c - b - 1 == k;
  }

  lemma AwaitLeaves(msgs: seq<Line>, k: nat, id: nat, collects: bool)
    requires id > 0 && AnsweredAt(msgs, k, id, collects)
    ensures k < |msgs| && msgs[k].Message? && msgs[k].envelope.result.Some?
    ensures Await(msgs, id, collects).result == Ok(msgs[k].envelope)
    ensures Await(msgs, id, collects).rest == msgs[k + 1..]
  {
    AwaitTakes(msgs, k, id, collects);
  }

  /** The exchange succeeds exactly on transcripts, when every request can be
      written. */
  lemma AcceptedIffTranscript(msgs: seq<Line>, request: LaunchRequest, outlet: Outlet)
    ensures Exchanged(msgs, request, outlet).result.Ok? <==>
              AllSent(outlet) && exists a, b, c :: Transcript(msgs, a, b, c)
  {
    hide Exchanged, Transcript;
    if Exchanged(msgs, request, outlet).result.Ok? {
      var a, b, c := AcceptedHasTranscript(msgs, request, outlet);
    }
    if AllSent(outlet) && exists a, b, c :: Transcript(msgs, a, b, c) {
      var a, b, c :| Transcript(msgs, a, b, c);
      TranscriptIsAccepted(msgs, request, outlet, a, b, c);
    }
  }

  const METHODS := ["initialize", "session/new", "session/prompt"]

  /** What is written is a prefix of the three requests, numbered from one; a
      failed exchange fails at the last request it wrote, or at the next one
      if that could not be written. */
  lemma WrittenIsAPrefix(msgs: seq<Line>, request: LaunchRequest, outlet: Outlet)
    ensures var e := Exchanged(msgs, request, outlet);
            && |e.written| <= 3
            && (forall k :: 0 <= k < |e.written| ==> e.written[k].id == k + 1 && e.written[k].methodName == METHODS[k])
            && (forall k :: 0 <= k < |e.written| ==> outlet(e.written[k].id).Sent?)
            && (e.result.Ok? ==> |e.written| == 3)
            && (e.result.Err? ==>
                  || (e.written != [] && e.result.error.op == METHODS[|e.written| - 1])
                  || (|e.written| < 3 && !outlet(|e.written| + 1).Sent?
                      && e.result.error == LaunchError(METHODS[|e.written|],
                           if outlet(|e.written| + 1).CancelledBefore? then Cancellation else BrokenOutput)))
  {
    hide Await, StringField, InitializeRequest, NewSessionRequest, PromptRequest, ExtractSessionId, Fields;
    RequestShapes(request);
  }

  lemma RequestShapes(request: LaunchRequest)
    ensures InitializeRequest().id == 1 && InitializeRequest().methodName == METHODS[0]
    ensures NewSessionRequest(request).id == 2 && NewSessionRequest(request).methodName == METHODS[1]
    ensures forall sessionId ::
              PromptRequest(request, sessionId).id == 3 && PromptRequest(request, sessionId).methodName == METHODS[2]
  {
  }

  // ----- The client object -----

  lemma {:induction false} MessagesCons(lines: seq<Line>)
    requires lines != []
    ensures Messages(lines) == if lines[0].Blank? then Messages(lines[1..]) else [lines[0]] + Messages(lines[1..])
  {
    assert [] + Messages(lines[1..]) == Messages(lines[1..]);
  }

  class WireClient {
    var unread: seq<Line>
    var written: seq<Request>
    var nextId: nat
    const outlet: Outlet

    constructor (lines: seq<Line>, outlet: Outlet)
      ensures unread == lines && written == [] && nextId == 1 && this.outlet == outlet
    {
      unread, written, nextId := lines, [], 1;
      this.outlet := outlet;
    }

    method ReadEnvelope() returns (r: Result<Envelope, Failure>)
      modifies `unread
      ensures Messages(old(unread)) == [] ==> r == Err(EndOfInput) && Messages(unread) == []
      ensures Messages(old(unread)) != [] ==>
                && var msgs := Messages(old(unread));
                && Messages(unread) == msgs[1..] && |unread| < |old(unread)|
                && r == if msgs[0].Message? then Ok(msgs[0].envelope) else Err(ReadFailure(msgs[0]))
    {
      while unread != []
        invariant Messages(unread) == Messages(old(unread)) && |unread| <= |old(unread)|
        decreases |unread|
      {
        var line := unread[0];
        MessagesCons(unread);
        unread := unread[1..];
        match line
        case Blank =>
        case Message(envelope) => return Ok(envelope);
        case Cancelled => return Err(Cancellation);
        case ReadBroke => return Err(BrokenInput);
        case Garbage => return Err(Undecodable);
      }
      r := Err(EndOfInput);
    }

    /** Writes a request, unless the context is done or the pipe broken. */
    method WriteRequest(request: Request) returns (error: Option<Failure>)
      modifies `written
      ensures error == if outlet(request.id).Sent? then None else Some(WriteFailure(outlet(request.id)))
      ensures written == if error.None? then old(written) + [request] else old(written)
    {
      match outlet(request.id)
      case CancelledBefore => return Some(Cancellation);
      case WriteBroke => return Some(BrokenOutput);
      case Sent =>
        written := written + [request];
        error := None;
    }

    /** Writes a request and reads until it is answered. */
    method Call(methodName: string, params: Json, collects: bool)
      returns (r: Result<Envelope, Failure>, updates: seq<Update>)
      modifies this
      ensures nextId == old(nextId) + 1
      ensures !outlet(old(nextId)).Sent? ==>
                r == Err(WriteFailure(outlet(old(nextId)))) && written == old(written)
      ensures outlet(old(nextId)).Sent? ==>
                written == old(written) + [Request(old(nextId), methodName, params)]
      ensures outlet(old(nextId)).Sent? ==>
              var reply := Await(Messages(old(unread)), old(nextId), collects);
              r == reply.result && updates == reply.updates && Messages(unread) == reply.rest
    {
      hide Messages, ParseSessionUpdate, Judge;
      var requestId := nextId;
      nextId := nextId + 1;
      updates := [];
      var unsent := WriteRequest(Request(requestId, methodName, params));
      if unsent.Some? { return Err(unsent.value), updates; }
      ghost var reply := Await(Messages(unread), requestId, collects);
      while true
        invariant nextId == requestId + 1 && written == old(written) + [Request(requestId, methodName, params)]
        invariant reply == Before(updates, Await(Messages(unread), requestId, collects))
        decreases |unread|
      {
        ghost var msgs := Messages(unread);
        var read := ReadEnvelope();
        if read.Err? { return Err(read.error), updates; }
        var envelope := read.value;
        if envelope.id.Some? { return Judge(envelope, requestId), updates; }
        if collects && envelope.methodName == "session/update" {
          var parsed := ParseSessionUpdate(envelope.params);
          if parsed.Err? { return Err(parsed.error), updates; }
          BeforeTwice(updates, [parsed.value], Await(msgs[1..], requestId, collects));
          updates := updates + [parsed.value];
        }
      }
    }

    method Initialize() returns (error: Option<LaunchError>)
      requires nextId == 1
      modifies this
      ensures nextId == 2
      ensures written == if outlet(1).Sent? then old(written) + [InitializeRequest()] else old(written)
      ensures !outlet(1).Sent? ==> error.Some? && error.value == LaunchError("initialize", WriteFailure(outlet(1)))
      ensures outlet(1).Sent? ==>
              var reply := Await(Messages(old(unread)), 1, false);
              && Messages(unread) == reply.rest
              && error == if reply.result.Err? then Some(LaunchError("initialize", reply.result.error))
                          else if Fields(reply.result.value.result).Err?
                          then Some(LaunchError("initialize", NotAnObject)) else None
    {
      var r, _ := Call("initialize", JObject(map["protocolVersion" := JNumber("1")]), false);
      if r.Err? { return Some(LaunchError("initialize", r.error)); }
      if Fields(r.value.result).Err? { return Some(LaunchError("initialize", NotAnObject)); }
      error := None;
    }

    method CreateSession(request: LaunchRequest) returns (r: Result<string, LaunchError>)
      requires nextId == 2
      modifies this
      ensures nextId == 3
      ensures written == if outlet(2).Sent? then old(written) + [NewSessionRequest(request)] else old(written)
      ensures !outlet(2).Sent? ==> r.Err? && r.error == LaunchError("session/new", WriteFailure(outlet(2)))
      ensures outlet(2).Sent? ==>
              var reply := Await(Messages(old(unread)), 2, false);
              && Messages(unread) == reply.rest
              && r == if reply.result.Err? then Err(LaunchError("session/new", reply.result.error))
                      else match ExtractSessionId(reply.result.value.result)
                           case Err(e) => Err(LaunchError("session/new", e))
                           case Ok(sessionId) => Ok(sessionId)
    {
      var answer, _ := Call("session/new",
        JObject(map["cwd" := JString(request.cwd), "mcpServers" := JArray(request.mcpServers)]), false);
      if answer.Err? { return Err(LaunchError("session/new", answer.error)); }
      var sessionId := ExtractSessionId(answer.value.result);
      if sessionId.Err? { return Err(LaunchError("session/new", sessionId.error)); }
      r := Ok(sessionId.value);
    }

    method PromptSession(request: LaunchRequest, sessionId: string)
      returns (r: Result<Json, LaunchError>, updates: seq<Update>)
      requires nextId == 3
      modifies this
      ensures nextId == 4
      ensures written == if outlet(3).Sent? then old(written) + [PromptRequest(request, sessionId)] else old(written)
      ensures !outlet(3).Sent? ==> r.Err? && r.error == LaunchError("session/prompt", WriteFailure(outlet(3)))
      ensures outlet(3).Sent? ==>
              var reply := Await(Messages(old(unread)), 3, true);
              && Messages(unread) == reply.rest && updates == reply.updates
              && r == if reply.result.Err? then Err(LaunchError("session/prompt", reply.result.error))
                      else if reply.result.value.result.None? then Err(LaunchError("session/prompt", MissingResult))
                      else Ok(reply.result.value.result.value)
    {
      var answer;
      answer, updates := Call("session/prompt", JObject(map[
        "sessionId" := JString(sessionId),
        "prompt" := JArray([JObject(map["type" := JString("text"), "text" := JString(request.prompt)])])]), true);
      if answer.Err? { return Err(LaunchError("session/prompt", answer.error)), updates; }
      r := match answer.value.result
        case None => Err(LaunchError("session/prompt", MissingResult))
        case Some(result) => Ok(result);
    }

    /** The whole exchange of a launch: what AcceptedIffTranscript says of
        `Exchanged`, this method does. */
    method Execute(request: LaunchRequest) returns (r: Result<LaunchResult, LaunchError>)
      requires nextId == 1
      modifies this
      ensures var e := Exchanged(Messages(old(unread)), request, outlet);
              r == e.result && written == old(written) + e.written
    {
      hide Await, Messages, InitializeRequest, NewSessionRequest, PromptRequest, ExtractSessionId, Fields;
      ghost var before := written;
      var failed := Initialize();
      if failed.Some? { return Err(failed.value); }
      var session := CreateSession(request);
      ghost var sent := [InitializeRequest()] + [NewSessionRequest(request)];
      if outlet(2).Sent? { assert written == before + sent; }
      if session.Err? { return Err(session.error); }
      var answer, updates := PromptSession(request, session.value);
      if outlet(3).Sent? { assert written == before + (sent + [PromptRequest(request, session.value)]); }
      if answer.Err? { return Err(answer.error); }
      r := Ok(LaunchResult(session.value, answer.value, updates));
    }
  }
}
