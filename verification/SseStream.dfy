/** The event stream end to end: what the server writes, cut into any chunks,
    is what the client reads (apps/sonal-ui/src/lib/agentapi/sse.ts). */
module SseStream {
  import opened Wrappers
  import opened StreamEvents
  import opened SseWriter
  import opened SseParser
  import Text

  // ----- The reading loops -----

  lemma {:induction false} NormalizeShrinks(s: string)
    ensures |Normalize(s)| <= |s|
    decreases |s|
  {
    if s != "" {
      NormalizeShrinks(s[FrontLength(s)..]);
    }
  }

  lemma NormalizeTwice(s: string)
    ensures Normalize(Normalize(s)) == Normalize(s)
  {
    NormalizeHasNoCr(s);
    NormalizeFixes(Normalize(s));
  }

  lemma SuffixHasNoCr(s: string, k: nat)
    requires NoCr(s) && k <= |s|
    ensures NoCr(s[k..]) && Normalize(s[k..]) == s[k..]
  {
    NormalizeFixes(s[k..]);
  }

  /** Yields the complete frames of a buffer, until one is not JSON; ends
      because every frame shortens the buffer. */
  method DrainCompleteFrames(codec: Codec, buffer: string)
    returns (events: seq<SseJsonEvent>, threw: bool, rest: string)
    ensures (events, threw) == DecodeAll(codec, SplitFrames(Normalize(buffer)).0)
    ensures !threw ==> rest == SplitFrames(Normalize(buffer)).1
  {
    hide Normalize, SplitFrames, FindBreak, DecodeAll, ParseBlock;
    events := [];
    var b := buffer;
    ghost var frames: seq<Frame> := [];
    DecodeNone(codec);
    while true
      invariant SplitFrames(Normalize(buffer)).0 == frames + SplitFrames(Normalize(b)).0
      invariant SplitFrames(Normalize(buffer)).1 == SplitFrames(Normalize(b)).1
      invariant DecodeAll(codec, frames) == (events, false)
      decreases |b|
    {
      NormalizeShrinks(b);
      NormalizeTwice(b);
      NormalizeHasNoCr(b);
      ghost var before := b;
      b := Normalize(b);
      SplitStep(b);
      var sep := FindBreak(b);
      if sep.None? {
        assert frames + [] == frames;
        return events, false, b;
      }
      var block := b[..sep.value];
      SuffixHasNoCr(b, sep.value + 2);
      ghost var later := SplitFrames(b[sep.value + 2..]).0;
      b := b[sep.value + 2..];
      var parsed := ParseEventBlock(block);
      if parsed.Some? {
        DecodeConcat(codec, frames, [parsed.value]);
        DecodeOne(codec, parsed.value);
        assert frames + (OptionSeq(parsed) + later) == frames + [parsed.value] + later;
        frames := frames + [parsed.value];
        var payload := codec.decode(parsed.value.data);
        assert events + [] == events;
        if payload.None? {
          DecodeConcat(codec, frames, later);
          return events, true, "";
        }
        events := events + [SseJsonEvent(parsed.value.name, payload.value)];
      } else {
        assert frames + (OptionSeq(parsed) + later) == frames + later;
      }
    }
  }

  lemma DecodeNone(codec: Codec)
    ensures DecodeAll(codec, []) == ([], false)
  {
  }

  lemma DecodeOne(codec: Codec, frame: Frame)
    ensures DecodeAll(codec, [frame])
         == match codec.decode(frame.data)
            case None => ([], true)
            case Some(e) => ([SseJsonEvent(frame.name, e)], false)
  {
    assert [frame][0] == frame && [frame][1..] == [];
    assert forall e :: [SseJsonEvent(frame.name, e)] + [] == [SseJsonEvent(frame.name, e)];
  }

  /** The events a stream of chunks yields, and whether it ends by throwing. */
  function ParseResult(codec: Codec, chunks: seq<string>): (seq<SseJsonEvent>, bool) {
    DecodeAll(codec, AllFrames(NormalizeEach(chunks)))
  }

  lemma NormalizeEachAppend(chunks: seq<string>, k: nat)
    requires k < |chunks|
    ensures NormalizeEach(chunks[..k + 1]) == NormalizeEach(chunks[..k]) + Normalize(chunks[k])
  {
    hide Normalize, NormalizeEach;
    var first := chunks[..k + 1];
    NormalizeEachSplit(first, k);
    assert first[..k] == chunks[..k] && first[k..] == [chunks[k]];
    NormalizeEachStep([chunks[k]]);
    NormalizeEachStep([]);
    assert [chunks[k]][1..] == [] && Normalize(chunks[k]) + "" == Normalize(chunks[k]);
  }

  /** A drained buffer takes the next chunk: what is still to come is what the
      longer text still holds. */
  lemma NextChunk(text: string, chunk: string)
    requires NoCr(text)
    ensures NoCr(text + Normalize(chunk))
    ensures Normalize(SplitFrames(text).1 + chunk) == SplitFrames(text).1 + Normalize(chunk)
    ensures SplitFrames(text + Normalize(chunk)).0
         == SplitFrames(text).0 + SplitFrames(Normalize(SplitFrames(text).1 + chunk)).0
    ensures SplitFrames(text + Normalize(chunk)).1 == SplitFrames(Normalize(SplitFrames(text).1 + chunk)).1
  {
    hide SplitFrames, Normalize;
    RestHasNoBreak(text);
    NormalizeHasNoCr(chunk);
    NormalizeConcat(SplitFrames(text).1, chunk);
    NormalizeFixes(SplitFrames(text).1);
    SplitInTwo(text, Normalize(chunk));
  }

  /** The whole reading loop: drain, read a chunk, and at the end the last
      block. */
  method ParseAgentSseJsonStream(codec: Codec, chunks: seq<string>) returns (events: seq<SseJsonEvent>, threw: bool)
    ensures (events, threw) == ParseResult(codec, chunks)
  {
    hide SplitFrames, Normalize, DecodeAll, NormalizeEach, AllFrames, ParseBlock;
    events := [];
    var buffer := "";
    ghost var text := "";
    EmptyText(codec, chunks);
    for k := 0 to |chunks|
      invariant text == NormalizeEach(chunks[..k]) && NoCr(text)
      invariant ReadSoFar(codec, text, events, buffer)
    {
      var more, failed, rest := DrainCompleteFrames(codec, buffer);
      DrainKeeps(codec, text, events, buffer, more, failed, rest);
      events := events + more;
      if failed {
        ThrownEarly(codec, chunks, k, events);
        return events, true;
      }
      NextChunk(text, chunks[k]);
      NormalizeEachAppend(chunks, k);
      text := text + Normalize(chunks[k]);
      buffer := rest + chunks[k];
    }
    assert chunks[..|chunks|] == chunks;
    var more, failed, rest := DrainCompleteFrames(codec, buffer);
    DrainKeeps(codec, text, events, buffer, more, failed, rest);
    events := events + more;
    if failed {
      ThrownEarly(codec, chunks, |chunks|, events);
      return events, true;
    }
    DecodeConcat(codec, SplitFrames(text).0, TailFrame(rest));
    AllFramesParts(text);
    DecodeNone(codec);
    assert events + [] == events;
    threw := false;
    var tail := TrimEnd(Normalize(rest));
    if |tail| > 0 {
      var parsed := ParseEventBlock(tail);
      if parsed.Some? {
        DecodeOne(codec, parsed.value);
        var payload := codec.decode(parsed.value.data);
        if payload.None? { return events, true; }
        events := events + [SseJsonEvent(parsed.value.name, payload.value)];
      }
    }
  }

  /** All frames of the text so far are decoded but those still in the
      buffer. */
  ghost predicate ReadSoFar(codec: Codec, text: string, events: seq<SseJsonEvent>, buffer: string) {
    exists frames ::
      && DecodeAll(codec, frames) == (events, false)
      && SplitFrames(text).0 == frames + SplitFrames(Normalize(buffer)).0
      && SplitFrames(text).1 == SplitFrames(Normalize(buffer)).1
  }

  lemma EmptyText(codec: Codec, chunks: seq<string>)
    ensures NormalizeEach(chunks[..0]) == "" && ReadSoFar(codec, "", [], "")
  {
    DecodeNone(codec);
    assert SplitFrames("").0 == [] + SplitFrames(Normalize("")).0;
  }

  lemma DrainKeeps(codec: Codec, text: string, events: seq<SseJsonEvent>, buffer: string,
                   more: seq<SseJsonEvent>, failed: bool, rest: string)
    requires ReadSoFar(codec, text, events, buffer)
    requires (more, failed) == DecodeAll(codec, SplitFrames(Normalize(buffer)).0)
    requires !failed ==> rest == SplitFrames(Normalize(buffer)).1
    ensures DecodeAll(codec, SplitFrames(text).0) == (events + more, failed)
    ensures !failed ==> rest == SplitFrames(text).1
    ensures forall chunk ::
              !failed && SplitFrames(text + Normalize(chunk)).0
                           == SplitFrames(text).0 + SplitFrames(Normalize(rest + chunk)).0
              && SplitFrames(text + Normalize(chunk)).1 == SplitFrames(Normalize(rest + chunk)).1
              ==> ReadSoFar(codec, text + Normalize(chunk), events + more, rest + chunk)
  {
    hide SplitFrames, Normalize, DecodeAll;
    var frames :| DecodeAll(codec, frames) == (events, false)
      && SplitFrames(text).0 == frames + SplitFrames(Normalize(buffer)).0
      && SplitFrames(text).1 == SplitFrames(Normalize(buffer)).1;
    DecodeConcat(codec, frames, SplitFrames(Normalize(buffer)).0);
  }

  lemma {:induction false} NormalizeEachSplit(chunks: seq<string>, k: nat)
    requires k <= |chunks|
    ensures NormalizeEach(chunks) == NormalizeEach(chunks[..k]) + NormalizeEach(chunks[k..])
    decreases k
  {
    hide Normalize, NormalizeEach;
    if k == 0 {
      NormalizeEachStep(chunks[..0]);
      assert chunks[0..] == chunks && "" + NormalizeEach(chunks) == NormalizeEach(chunks);
    } else {
      var rest := chunks[1..];
      NormalizeEachStep(chunks);
      NormalizeEachStep(chunks[..k]);
      assert chunks[..k][1..] == rest[..k - 1] && chunks[k..] == rest[k - 1..];
      NormalizeEachSplit(rest, k - 1);
      Associate(Normalize(chunks[0]), NormalizeEach(rest[..k - 1]), NormalizeEach(rest[k - 1..]));
    }
  }

  lemma NormalizeEachStep(chunks: seq<string>)
    ensures NormalizeEach(chunks) == if chunks == [] then "" else Normalize(chunks[0]) + NormalizeEach(chunks[1..])
  {
    hide Normalize;
  }

  lemma AllFramesParts(text: string)
    ensures AllFrames(text) == SplitFrames(text).0 + TailFrame(SplitFrames(text).1)
  {
  }

  /** A frame that is not JSON ends the stream wherever the chunks are cut. */
  lemma ThrownEarly(codec: Codec, chunks: seq<string>, k: nat, events: seq<SseJsonEvent>)
    requires k <= |chunks|
    requires DecodeAll(codec, SplitFrames(NormalizeEach(chunks[..k])).0) == (events, true)
    ensures ParseResult(codec, chunks) == (events, true)
  {
    hide SplitFrames, Normalize, DecodeAll, NormalizeEach, TailFrame;
    NormalizeEachSplit(chunks, k);
    var a, b := NormalizeEach(chunks[..k]), NormalizeEach(chunks[k..]);
    SplitInTwo(a, b);
    var later := SplitFrames(SplitFrames(a).1 + b).0;
    DecodeConcat(codec, SplitFrames(a).0, later);
    DecodeConcat(codec, SplitFrames(a + b).0, TailFrame(SplitFrames(a + b).1));
  }

  // ----- Where the chunks are cut does not matter -----

  /** No chunk boundary separates a CR from the LF after it. */
  ghost predicate CleanCuts(chunks: seq<string>) {
    forall k :: 0 <= k < |chunks| ==> !SplitsCrLf(chunks[k], Concat(chunks[k + 1..]))
  }

  lemma {:induction false} NormalizeEachIsNormalize(chunks: seq<string>)
    requires CleanCuts(chunks)
    ensures NormalizeEach(chunks) == Normalize(Concat(chunks))
    decreases |chunks|
  {
    if chunks != [] {
      var rest := chunks[1..];
      assert !SplitsCrLf(chunks[0], Concat(chunks[1..]));
      forall k | 0 <= k < |rest| ensures !SplitsCrLf(rest[k], Concat(rest[k + 1..])) {
        assert rest[k] == chunks[k + 1] && rest[k + 1..] == chunks[k + 2..];
      }
      NormalizeEachIsNormalize(rest);
      NormalizeConcat(chunks[0], Concat(rest));
    }
  }

  /** Any two ways of cutting the same text, neither through a CR LF pair,
      yield the same events and the same end. */
  lemma ChunksDoNotMatter(codec: Codec, chunks: seq<string>, others: seq<string>)
    requires Concat(chunks) == Concat(others) && CleanCuts(chunks) && CleanCuts(others)
    ensures ParseResult(codec, chunks) == ParseResult(codec, others)
    ensures SplitFrames(NormalizeEach(chunks)) == SplitFrames(NormalizeEach(others))
  {
    NormalizeEachIsNormalize(chunks);
    NormalizeEachIsNormalize(others);
  }

  /** Text without CR can be cut anywhere. */
  lemma CrFreeCutsAreClean(chunks: seq<string>)
    requires NoCr(Concat(chunks))
    ensures CleanCuts(chunks)
  {
    forall k | 0 <= k < |chunks| ensures !SplitsCrLf(chunks[k], Concat(chunks[k + 1..])) {
      ChunkWithin(chunks, k);
    }
  }

  lemma {:induction false} ChunkWithin(chunks: seq<string>, k: nat)
    requires k < |chunks| && NoCr(Concat(chunks))
    ensures NoCr(chunks[k])
    decreases |chunks|
  {
    var head, tail := chunks[0], Concat(chunks[1..]);
    assert Concat(chunks) == head + tail;
    forall i | 0 <= i < |head| ensures head[i] != '\r' { assert Concat(chunks)[i] == head[i]; }
    forall i | 0 <= i < |tail| ensures tail[i] != '\r' { assert Concat(chunks)[|head| + i] == tail[i]; }
    if k > 0 { ChunkWithin(chunks[1..], k - 1); }
  }

  lemma NormalizeAfterCr(b: string)
    requires SplitsCrLf("\r", b)
    ensures |Normalize("\r" + b)| == |Normalize("\r")| + |Normalize(b)| - 1
  {
    hide Normalize;
    var s := "\r" + b;
    NormalizeStep(s);
    NormalizeStep("\r");
    NormalizeStep("");
    NormalizeStep(b);
    assert s[0] == '\r' && s[1] == '\n' && s[2..] == b[1..] && "\r"[1..] == "";
  }

  /** Normalising in two parts is longer by one exactly when the cut falls in a
      CR LF pair. */
  lemma {:induction false} NormalizeLength(a: string, b: string)
    ensures |Normalize(a + b)| == |Normalize(a)| + |Normalize(b)| - if SplitsCrLf(a, b) then 1 else 0
    decreases |a|
  {
    hide Normalize, Front, FrontLength, SplitsCrLf;
    NormalizeStep(a);
    if a == "" {
      assert a + b == b && !SplitsCrLf(a, b) by { EmptySplitsNothing(b); }
    } else if |a| == 1 && SplitsCrLf(a, b) {
      assert a == "\r" by { SplitsAtCr(a, b); }
      NormalizeAfterCr(b);
    } else {
      FrontOfConcat(a, b);
      NormalizeStep(a + b);
      RestSplitsLikeWhole(a, b);
      LongRestSplits(a, b);
      NormalizeLength(a[FrontLength(a)..], b);
    }
  }

  lemma EmptySplitsNothing(b: string)
    ensures !SplitsCrLf("", b)
  {
  }

  lemma SplitsAtCr(a: string, b: string)
    requires |a| == 1 && SplitsCrLf(a, b)
    ensures a == "\r"
  {
  }

  lemma LongRestSplits(a: string, b: string)
    requires a != "" && !(|a| == 1 && SplitsCrLf(a, b))
    ensures SplitsCrLf(a, b) <==> SplitsCrLf(a[FrontLength(a)..], b)
  {
  }

  lemma CleanCutsStep(chunks: seq<string>)
    requires chunks != []
    ensures CleanCuts(chunks) <==> !SplitsCrLf(chunks[0], Concat(chunks[1..])) && CleanCuts(chunks[1..])
  {
    var rest := chunks[1..];
    forall k | 0 <= k < |rest| ensures rest[k] == chunks[k + 1] && rest[k + 1..] == chunks[k + 2..] {
    }
    if CleanCuts(chunks) { assert !SplitsCrLf(chunks[0], Concat(chunks[1..])); }
    if !SplitsCrLf(chunks[0], Concat(rest)) && CleanCuts(rest) {
      forall k | 0 <= k < |chunks| ensures !SplitsCrLf(chunks[k], Concat(chunks[k + 1..])) {
        if k > 0 { assert !SplitsCrLf(rest[k - 1], Concat(rest[k..])); }
      }
    }
  }

  lemma {:induction false} NormalizeEachLength(chunks: seq<string>)
    ensures |NormalizeEach(chunks)| >= |Normalize(Concat(chunks))|
    ensures |NormalizeEach(chunks)| == |Normalize(Concat(chunks))| ==> CleanCuts(chunks)
    decreases |chunks|
  {
    hide CleanCuts, Normalize, SplitsCrLf;
    if chunks == [] {
      NoCutsAreClean();
      assert Normalize("") == "" by { NormalizeFixes(""); }
    } else {
      NormalizeEachLength(chunks[1..]);
      NormalizeLength(chunks[0], Concat(chunks[1..]));
      CleanCutsStep(chunks);
    }
  }

  lemma NoCutsAreClean()
    ensures CleanCuts([])
  {
  }

  /** The parser works on the text that was sent if and only if no cut falls in
      a CR LF pair. */
  lemma SentTextIsReadIffCleanCuts(chunks: seq<string>)
    ensures NormalizeEach(chunks) == Normalize(Concat(chunks)) <==> CleanCuts(chunks)
  {
    hide CleanCuts;
    NormalizeEachLength(chunks);
    if CleanCuts(chunks) { NormalizeEachIsNormalize(chunks); }
  }

  /** A cut between CR and LF makes both halves line breaks, and the blank line
      between them ends a frame early. */
  lemma CutThroughCrLfMatters()
    ensures Concat(["\r", "\n"]) == Concat(["\r\n"])
    ensures SplitFrames(NormalizeEach(["\r", "\n"])) != SplitFrames(NormalizeEach(["\r\n"]))
  {
    hide SplitFrames, FindBreak;
    NormalizeFixes("\n");
    assert Normalize("\r") == "\n" by { assert "\r"[1..] == ""; }
    assert Normalize("\r\n") == "\n" by { assert "\r\n"[2..] == ""; }
    assert ["\r", "\n"][1..] == ["\n"] && ["\n"][1..] == [] && ["\r\n"][1..] == [];
    assert NormalizeEach(["\r", "\n"]) == "\n\n" && NormalizeEach(["\r\n"]) == "\n";
    NoBreakWithin("\n");
    NoBreakWithin("");
    SplitStep("\n");
    SplitStep("\n\n");
    assert FindBreak("\n\n") == Some(0) by { OneBreak(); }
    assert "\n\n"[2..] == "";
    SplitStep("");
  }

  lemma OneBreak()
    ensures FindBreak("\n\n") == Some(0)
  {
  }

  lemma {:induction false} NoBreakWithin(s: string)
    requires forall k :: 0 <= k < |s| - 1 ==> !(s[k] == '\n' == s[k + 1])
    ensures FindBreak(s).None?
    decreases |s|
  {
    if |s| >= 2 {
      forall k | 0 <= k < |s[1..]| - 1 ensures !(s[1..][k] == '\n' == s[1..][k + 1]) {
        assert s[1..][k] == s[k + 1] && s[1..][k + 1] == s[k + 2];
      }
      NoBreakWithin(s[1..]);
    }
  }

  // ----- What is written is read back -----

  /** A field value that survives the wire: one line, no blank in front. */
  predicate Clean(s: string) {
    && (forall k :: 0 <= k < |s| ==> s[k] != '\n' && s[k] != '\r')
    && (s != "" ==> !IsBlank(s[0]))
  }

  /** The JSON engine decodes what it encodes of an event, on one line. */
  ghost predicate ExactOn(codec: Codec, e: StreamEvent) {
    codec.decode(codec.encode(e)) == Some(e) && Clean(codec.encode(e))
  }

  ghost predicate Exact(codec: Codec, events: seq<StreamEvent>) {
    forall k :: 0 <= k < |events| ==> ExactOn(codec, events[k])
  }

  lemma ExactRest(codec: Codec, events: seq<StreamEvent>)
    requires Exact(codec, events) && events != []
    ensures ExactOn(codec, events[0]) && Exact(codec, events[1..])
  {
    forall k | 0 <= k < |events[1..]| ensures ExactOn(codec, events[1..][k]) {
      assert events[1..][k] == events[k + 1];
    }
  }

  function BlockText(name: string, data: string): string {
    "event: " + name + "\ndata: " + data
  }

  lemma {:induction false} FirstBreak(block: string, rest: string)
    requires forall k :: 0 <= k < |block| - 1 ==> !(block[k] == '\n' == block[k + 1])
    requires block != "" && block[|block| - 1] != '\n'
    ensures FindBreak(block + "\n\n" + rest) == Some(|block|)
    decreases |block|
  {
    var s := block + "\n\n" + rest;
    if |block| == 1 {
      assert s[1..] == "\n\n" + rest;
    } else {
      assert s[1..] == block[1..] + "\n\n" + rest;
      forall k | 0 <= k < |block[1..]| - 1 ensures !(block[1..][k] == '\n' == block[1..][k + 1]) {
        assert block[1..][k] == block[k + 1] && block[1..][k + 1] == block[k + 2];
      }
      FirstBreak(block[1..], rest);
    }
  }

  lemma {:induction false} LinesOfOne(s: string)
    requires forall k :: 0 <= k < |s| ==> s[k] != '\n'
    ensures Lines(s) == [s]
    decreases |s|
  {
    if s != "" {
      LinesOfOne(s[1..]);
      assert [s[0]] + s[1..] == s;
    }
  }

  lemma {:induction false} LinesOfTwo(a: string, b: string)
    requires forall k :: 0 <= k < |a| ==> a[k] != '\n'
    requires forall k :: 0 <= k < |b| ==> b[k] != '\n'
    ensures Lines(a + "\n" + b) == [a, b]
    decreases |a|
  {
    var s := a + "\n" + b;
    if a == "" {
      assert s[1..] == b;
      LinesOfOne(b);
    } else {
      assert s[1..] == a[1..] + "\n" + b;
      LinesOfTwo(a[1..], b);
      assert [a[0]] + a[1..] == a;
    }
  }

  /** A blank and a clean value after a field name: the value is read back. */
  lemma FieldValue(value: string)
    requires Clean(value)
    ensures TrimStart(" " + value) == value
  {
    assert (" " + value)[1..] == value;
    assert IsBlank(' ');
    assert TrimStart(" " + value) == TrimStart(value);
    assert TrimStart(value) == value;
  }

  lemma BlockIsItsFrame(name: string, data: string)
    requires Clean(name) && Clean(data)
    ensures ParseBlock(BlockText(name, data)) == Some(Frame(Some(name), data))
  {
    hide TrimStart, Lines, Normalize;
    var first, second := "event: " + name, "data: " + data;
    var block := BlockText(name, data);
    assert block == first + "\n" + second;
    assert NoCr(block);
    NormalizeFixes(block);
    LinesOfTwo(first, second);
    assert EVENT_FIELD <= first && first[|EVENT_FIELD|..] == " " + name;
    assert DATA_FIELD <= second && second[|DATA_FIELD|..] == " " + data;
    FieldValue(name);
    FieldValue(data);
    var f := Fields(None, []);
    assert second[0] == 'd' && first[0] == 'e';
    assert !(EVENT_FIELD <= second);
    assert AddLine(f, first) == Fields(Some(name), []);
    assert AddLine(Fields(Some(name), []), second) == Fields(Some(name), [data]);
    assert [first, second][1..] == [second] && [second][1..] == [];
    assert AddLines(Fields(Some(name), []), [second]) == AddLines(Fields(Some(name), [data]), []);
    assert AddLines(f, [first, second]) == AddLines(Fields(Some(name), []), [second]);
    assert AddLines(f, [first, second]) == Fields(Some(name), [data]);
  }

  lemma BlockHasNoBreak(name: string, data: string)
    requires Clean(name) && Clean(data)
    ensures var block := BlockText(name, data);
            && block != "" && block[|block| - 1] != '\n' && NoCr(block)
            && forall k :: 0 <= k < |block| - 1 ==> !(block[k] == '\n' == block[k + 1])
  {
    var block := BlockText(name, data);
    var n := |"event: " + name|;
    assert block[n] == '\n' && block[n + 1] == 'd';
    assert forall k :: 0 <= k < |block| && block[k] == '\n' ==> k == n;
  }

  function FrameOf(codec: Codec, e: StreamEvent): Frame {
    Frame(Some(Discriminator(e)), codec.encode(e))
  }

  function FramesOf(codec: Codec, events: seq<StreamEvent>): seq<Frame> {
    if events == [] then [] else [FrameOf(codec, events[0])] + FramesOf(codec, events[1..])
  }

  function Received(events: seq<StreamEvent>): seq<SseJsonEvent> {
    if events == [] then []
    else [SseJsonEvent(Some(Discriminator(events[0])), events[0])] + Received(events[1..])
  }

  lemma DiscriminatorIsClean(e: StreamEvent)
    ensures Clean(Discriminator(e))
  {
  }

  /** Splitting the written text gives back the frames, with nothing left. */
  lemma {:induction false} WrittenFramesAreRead(codec: Codec, events: seq<StreamEvent>)
    requires Exact(codec, events)
    ensures SplitFrames(StreamText(codec, events)) == (FramesOf(codec, events), "")
    ensures NoCr(StreamText(codec, events))
    decreases |events|
  {
    hide SplitFrames, ParseBlock, FindBreak, Clean, Discriminator;
    if events == [] {
      NoBreakWithin("");
      SplitStep("");
    } else {
      ExactRest(codec, events);
      var name, data := Discriminator(events[0]), codec.encode(events[0]);
      var block, rest := BlockText(name, data), StreamText(codec, events[1..]);
      DiscriminatorIsClean(events[0]);
      BlockHasNoBreak(name, data);
      BlockIsItsFrame(name, data);
      FirstBreak(block, rest);
      WrittenFramesAreRead(codec, events[1..]);
      var text := StreamText(codec, events);
      assert text == block + "\n\n" + rest;
      SplitStep(text);
      assert text[..|block|] == block && text[|block| + 2..] == rest;
    }
  }

  lemma {:induction false} FramesDecode(codec: Codec, events: seq<StreamEvent>)
    requires Exact(codec, events)
    ensures DecodeAll(codec, FramesOf(codec, events)) == (Received(events), false)
    decreases |events|
  {
    hide Clean;
    if events != [] {
      ExactRest(codec, events);
      FramesDecode(codec, events[1..]);
    }
  }

  /** Whatever is written, however it is cut into chunks, the client yields
      exactly the written events in order, each under its own name, and does
      not throw. */
  lemma WrittenIsRead(codec: Codec, events: seq<StreamEvent>, chunks: seq<string>)
    requires Exact(codec, events) && Concat(chunks) == StreamText(codec, events)
    ensures ParseResult(codec, chunks) == (Received(events), false)
  {
    hide Clean, SplitFrames, Normalize, DecodeAll;
    WrittenFramesAreRead(codec, events);
    CrFreeCutsAreClean(chunks);
    NormalizeEachIsNormalize(chunks);
    NormalizeFixes(StreamText(codec, events));
    FramesDecode(codec, events);
    assert Normalize("") == "" by { NormalizeFixes(""); }
    assert TailFrame("") == [];
    assert FramesOf(codec, events) + [] == FramesOf(codec, events);
  }

  /** A stream that breaks off anywhere has yielded, before its last block, a
      prefix of the written frames. */
  lemma BrokenStreamYieldsPrefix(codec: Codec, events: seq<StreamEvent>, n: nat)
    requires Exact(codec, events) && n <= |StreamText(codec, events)|
    ensures SplitFrames(StreamText(codec, events)[..n]).0 <= FramesOf(codec, events)
  {
    hide Clean, SplitFrames;
    var text := StreamText(codec, events);
    WrittenFramesAreRead(codec, events);
    assert text == text[..n] + text[n..];
    SplitInTwo(text[..n], text[n..]);
  }
}
