/** The client side of the event stream: an incremental parser fed with chunks
    cut anywhere (apps/sonal-ui/src/lib/agentapi/sse.ts).  Chunks are decoded
    text; the parser is modelled as the code is, which strips every leading
    blank of a field and accepts an unterminated last block. */
module SseParser {
  import opened Wrappers
  import opened StreamEvents
  import opened SseWriter
  import Text

  /** What JavaScript's trimStart and trimEnd remove. */
  predicate IsBlank(c: char) {
    (Text.IsSpace(c) && c != '\U{85}') || c == '\U{FEFF}'
  }

  function TrimStart(s: string): string { Text.TrimLeft(s, IsBlank) }

  function TrimEnd(s: string): string { Text.TrimRight(s, IsBlank) }

  /** The length of the character or line break in front. */
  function FrontLength(s: string): (n: nat)
    requires s != ""
    ensures 1 <= n <= |s|
  {
    if s[0] == '\r' && |s| > 1 && s[1] == '\n' then 2 else 1
  }

  function Front(s: string): string
    requires s != ""
  {
    if s[0] == '\r' then "\n" else [s[0]]
  }

  function Normalize(s: string): string {
    if s == "" then "" else Front(s) + Normalize(s[FrontLength(s)..])
  }

  /** JavaScript's split('\n'). */
  function Lines(s: string): (lines: seq<string>)
    ensures lines != []
  {
    if s == "" then [""]
    else
      var rest := Lines(s[1..]);
      if s[0] == '\n' then [""] + rest else [[s[0]] + rest[0]] + rest[1..]
  }

  function Join(lines: seq<string>): string {
    if lines == [] then "" else if |lines| == 1 then lines[0] else lines[0] + "\n" + Join(lines[1..])
  }

  datatype Frame = Frame(name: Option<string>, data: string)

  datatype Fields = Fields(name: Option<string>, data: seq<string>)

  const EVENT_FIELD := "event:"
  const DATA_FIELD := "data:"

  function AddLine(f: Fields, line: string): Fields {
    if line == "" || line[0] == ':' then f
    else if EVENT_FIELD <= line then f.(name := Some(TrimStart(line[|EVENT_FIELD|..])))
    else if DATA_FIELD <= line then f.(data := f.data + [TrimStart(line[|DATA_FIELD|..])])
    else f
  }

  function AddLines(f: Fields, lines: seq<string>): Fields
    decreases |lines|
  {
    if lines == [] then f else AddLines(AddLine(f, lines[0]), lines[1..])
  }

  /** A block without a data field is no frame. */
  function ParseBlock(block: string): Option<Frame> {
    var f := AddLines(Fields(None, []), Lines(Normalize(block)));
    if f.data == [] then None else Some(Frame(f.name, Join(f.data)))
  }

  method ParseEventBlock(block: string) returns (frame: Option<Frame>)
    ensures frame == ParseBlock(block)
  {
    var lines := Lines(Normalize(block));
    var name: Option<string> := None;
    var data: seq<string> := [];
    for k := 0 to |lines|
      invariant AddLines(Fields(name, data), lines[k..]) == AddLines(Fields(None, []), lines)
    {
      var line := lines[k];
      assert lines[k..][0] == line && lines[k..][1..] == lines[k + 1..];
      if line == "" || line[0] == ':' {
        continue;
      }
      if EVENT_FIELD <= line {
        name := Some(TrimStart(line[|EVENT_FIELD|..]));
      } else if DATA_FIELD <= line {
        data := data + [TrimStart(line[|DATA_FIELD|..])];
      }
    }
    assert lines[|lines|..] == [];
    frame := if data == [] then None else Some(Frame(name, Join(data)));
  }

  /** JavaScript's indexOf("\n\n"). */
  function FindBreak(s: string): (k: Option<nat>)
    ensures k.Some? ==> k.value + 2 <= |s| && s[k.value] == '\n' == s[k.value + 1]
  {
    if |s| < 2 then None
    else if s[0] == '\n' == s[1] then Some(0)
    else match FindBreak(s[1..]) case None => None case Some(k) => Some(k + 1)
  }

  function OptionSeq<T>(o: Option<T>): seq<T> {
    if o.Some? then [o.value] else []
  }

  /** The complete frames at the front of a normalised text, and the rest. */
  function SplitFrames(s: string): (seq<Frame>, string)
    decreases |s|
  {
    match FindBreak(s)
    case None => ([], s)
    case Some(k) =>
      var (frames, rest) := SplitFrames(s[k + 2..]);
      (OptionSeq(ParseBlock(s[..k])) + frames, rest)
  }

  datatype SseJsonEvent = SseJsonEvent(eventName: Option<string>, payload: StreamEvent)

  /** The events yielded for frames; a frame that is not JSON throws. */
  function DecodeAll(codec: Codec, frames: seq<Frame>): (seq<SseJsonEvent>, bool) {
    if frames == [] then ([], false)
    else
      match codec.decode(frames[0].data)
      case None => ([], true)
      case Some(e) =>
        var (events, threw) := DecodeAll(codec, frames[1..]);
        ([SseJsonEvent(frames[0].name, e)] + events, threw)
  }

  /** The frame of a last block that no blank line ends. */
  function TailFrame(rest: string): seq<Frame> {
    if TrimEnd(Normalize(rest)) == "" then [] else OptionSeq(ParseBlock(TrimEnd(Normalize(rest))))
  }

  /** All frames of a normalised text. */
  function AllFrames(s: string): seq<Frame> {
    SplitFrames(s).0 + TailFrame(SplitFrames(s).1)
  }

  function Concat(chunks: seq<string>): string {
    if chunks == [] then "" else chunks[0] + Concat(chunks[1..])
  }

  /** Each chunk normalised by itself. */
  function NormalizeEach(chunks: seq<string>): string {
    if chunks == [] then "" else Normalize(chunks[0]) + NormalizeEach(chunks[1..])
  }

  predicate NoCr(s: string) {
    forall k :: 0 <= k < |s| ==> s[k] != '\r'
  }

  // ----- Facts about the pieces -----

  lemma {:induction false} NormalizeHasNoCr(s: string)
    ensures NoCr(Normalize(s))
    decreases |s|
  {
    if s != "" {
      NormalizeHasNoCr(s[FrontLength(s)..]);
    }
  }

  lemma {:induction false} NormalizeFixes(s: string)
    requires NoCr(s)
    ensures Normalize(s) == s
    decreases |s|
  {
    if s != "" { NormalizeFixes(s[1..]); }
  }

  predicate SplitsCrLf(a: string, b: string) {
    a != "" && b != "" && a[|a| - 1] == '\r' && b[0] == '\n'
  }

  lemma NormalizeStep(s: string)
    ensures Normalize(s) == if s == "" then "" else Front(s) + Normalize(s[FrontLength(s)..])
  {
  }

  lemma FrontOfConcat(a: string, b: string)
    requires a != "" && !(|a| == 1 && SplitsCrLf(a, b))
    ensures Front(a + b) == Front(a) && FrontLength(a + b) == FrontLength(a)
    ensures (a + b)[FrontLength(a)..] == a[FrontLength(a)..] + b
  {
  }

  /** Normalising piecewise is normalising the whole, unless the cut falls
      inside a CR LF pair. */
  lemma {:induction false} NormalizeConcat(a: string, b: string)
    requires !SplitsCrLf(a, b)
    ensures Normalize(a + b) == Normalize(a) + Normalize(b)
    decreases |a|
  {
    hide Normalize, Front, FrontLength;
    NormalizeStep(a);
    if a == "" {
      assert a + b == b && "" + Normalize(b) == Normalize(b);
    } else {
      var rest := a[FrontLength(a)..];
      FrontOfConcat(a, b);
      NormalizeStep(a + b);
      RestSplitsLikeWhole(a, b);
      NormalizeConcat(rest, b);
      Associate(Front(a), Normalize(rest), Normalize(b));
    }
  }

  lemma RestSplitsLikeWhole(a: string, b: string)
    requires a != ""
    ensures SplitsCrLf(a[FrontLength(a)..], b) ==> SplitsCrLf(a, b)
    ensures FrontLength(a) < |a| && SplitsCrLf(a, b) ==> SplitsCrLf(a[FrontLength(a)..], b)
    ensures FrontLength(a) == |a| && SplitsCrLf(a, b) ==> |a| == 1
  {
  }

  lemma {:induction false} FindBreakIn(a: string, b: string)
    ensures FindBreak(a).Some? ==> FindBreak(a + b) == FindBreak(a)
    decreases |a|
  {
    if |a| >= 2 {
      assert (a + b)[1..] == a[1..] + b;
      FindBreakIn(a[1..], b);
    }
  }

  lemma SplitStep(s: string)
    ensures FindBreak(s).None? ==> SplitFrames(s) == ([], s)
    ensures FindBreak(s).Some? ==>
              var k := FindBreak(s).value;
              && SplitFrames(s).0 == OptionSeq(ParseBlock(s[..k])) + SplitFrames(s[k + 2..]).0
              && SplitFrames(s).1 == SplitFrames(s[k + 2..]).1
  {
  }

  /** Draining what is there and the rest later is draining everything. */
  lemma {:induction false} SplitInTwo(a: string, b: string)
    ensures SplitFrames(a + b).0 == SplitFrames(a).0 + SplitFrames(SplitFrames(a).1 + b).0
    ensures SplitFrames(a + b).1 == SplitFrames(SplitFrames(a).1 + b).1
    decreases |a|
  {
    hide ParseBlock, SplitFrames, FindBreak;
    SplitStep(a);
    SplitStep(a + b);
    match FindBreak(a)
    case None =>
    case Some(k) =>
      FindBreakIn(a, b);
      assert (a + b)[..k] == a[..k] && (a + b)[k + 2..] == a[k + 2..] + b;
      SplitInTwo(a[k + 2..], b);
  }

  lemma {:induction false} RestHasNoBreak(s: string)
    ensures FindBreak(SplitFrames(s).1).None? && |SplitFrames(s).1| <= |s|
    ensures NoCr(s) ==> NoCr(SplitFrames(s).1)
    decreases |s|
  {
    hide ParseBlock, SplitFrames, FindBreak;
    SplitStep(s);
    match FindBreak(s)
    case None =>
    case Some(k) => RestHasNoBreak(s[k + 2..]);
  }

  lemma {:induction false} DecodeConcat(codec: Codec, a: seq<Frame>, b: seq<Frame>)
    ensures DecodeAll(codec, a + b)
         == if DecodeAll(codec, a).1 then DecodeAll(codec, a)
            else (DecodeAll(codec, a).0 + DecodeAll(codec, b).0, DecodeAll(codec, b).1)
    decreases |a|
  {
    if a == [] {
      assert a + b == b && [] + DecodeAll(codec, b).0 == DecodeAll(codec, b).0;
    } else {
      assert (a + b)[0] == a[0] && (a + b)[1..] == a[1..] + b;
      DecodeConcat(codec, a[1..], b);
      match codec.decode(a[0].data)
      case None =>
      case Some(e) =>
        var head := [SseJsonEvent(a[0].name, e)];
        assert head + (DecodeAll(codec, a[1..]).0 + DecodeAll(codec, b).0)
            == head + DecodeAll(codec, a[1..]).0 + DecodeAll(codec, b).0;
    }
  }
}
