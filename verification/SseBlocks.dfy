/** What a block of lines means, and what becomes of a last block that no blank
    line ends (apps/sonal-ui/src/lib/agentapi/sse.ts). */
module SseBlocks {
  import opened Wrappers
  import opened StreamEvents
  import opened SseWriter
  import opened SseParser
  import opened SseStream
  import Text

  // ----- Lines -----

  lemma LinesStep(s: string)
    requires s != ""
    ensures var rest := Lines(s[1..]);
            Lines(s) == if s[0] == '\n' then [""] + rest else [[s[0]] + rest[0]] + rest[1..]
  {
  }

  lemma JoinCons(line: string, rest: seq<string>)
    requires rest != []
    ensures Join([line] + rest) == line + "\n" + Join(rest)
  {
    assert ([line] + rest)[1..] == rest;
  }

  lemma JoinPrepend(c: char, lines: seq<string>)
    requires lines != []
    ensures Join([[c] + lines[0]] + lines[1..]) == [c] + Join(lines)
  {
    var more := [[c] + lines[0]] + lines[1..];
    assert more[1..] == lines[1..];
    if |lines| > 1 {
      Associate([c], lines[0], "\n");
      Associate([c], lines[0] + "\n", Join(lines[1..]));
    }
  }

  lemma NoLines()
    ensures Lines("") == [""] && Join([""]) == ""
  {
  }

  /** The lines are the text between the line feeds. */
  lemma {:induction false} LinesAreTheText(s: string)
    ensures Join(Lines(s)) == s
    ensures forall line :: line in Lines(s) ==> '\n' !in line
    decreases |s|
  {
    hide Lines, Join;
    if s == "" {
      NoLines();
    } else {
      var rest := Lines(s[1..]);
      LinesAreTheText(s[1..]);
      LinesStep(s);
      assert [s[0]] + s[1..] == s;
      if s[0] == '\n' {
        JoinCons("", rest);
        assert "" + "\n" == [s[0]];
      } else {
        JoinPrepend(s[0], rest);
      }
    }
  }

  // ----- Fields -----

  /** The values of the data lines, blanks in front removed. */
  function DataOf(lines: seq<string>): seq<string> {
    if lines == [] then []
    else (if "data:" <= lines[0] then [TrimStart(lines[0][5..])] else []) + DataOf(lines[1..])
  }

  /** The value of the last event line. */
  function NameOf(lines: seq<string>, before: Option<string>): Option<string>
    decreases |lines|
  {
    if lines == [] then before
    else NameOf(lines[1..], if "event:" <= lines[0] then Some(TrimStart(lines[0][6..])) else before)
  }

  lemma FieldsDiffer(line: string)
    ensures "data:" <= line ==> !("event:" <= line) && line[0] == 'd'
    ensures "event:" <= line ==> line[0] == 'e'
  {
    if "data:" <= line { assert line[0] == 'd'; }
    if "event:" <= line { assert line[0] == 'e'; }
  }

  lemma {:induction false} LinesAdd(f: Fields, lines: seq<string>)
    ensures AddLines(f, lines) == Fields(NameOf(lines, f.name), f.data + DataOf(lines))
    decreases |lines|
  {
    hide TrimStart;
    if lines == [] {
      assert f.data + [] == f.data;
    } else {
      FieldsDiffer(lines[0]);
      LinesAdd(AddLine(f, lines[0]), lines[1..]);
      var value := if "data:" <= lines[0] then [TrimStart(lines[0][5..])] else [];
      assert f.data + value + DataOf(lines[1..]) == f.data + (value + DataOf(lines[1..]));
      assert f.data + [] == f.data;
    }
  }

  /** A block is a frame exactly when it has a data line.  Its data are the
      values of those lines with line feeds in between, its name the value of
      the last event line; comments and other fields are nothing. */
  lemma BlockMeans(block: string)
    ensures var lines := Lines(Normalize(block));
            ParseBlock(block)
              == if DataOf(lines) == [] then None else Some(Frame(NameOf(lines, None), Join(DataOf(lines))))
  {
    hide AddLines, DataOf, NameOf, Lines, Normalize;
    var lines := Lines(Normalize(block));
    LinesAdd(Fields(None, []), lines);
    assert [] + DataOf(lines) == DataOf(lines);
  }

  // ----- The last block -----

  /** A rest of blanks is no frame. */
  lemma BlankRestIsNothing(rest: string)
    requires NoCr(rest) && forall k :: 0 <= k < |rest| ==> IsBlank(rest[k])
    ensures TailFrame(rest) == []
  {
    hide IsBlank;
    NormalizeFixes(rest);
    var t := TrimEnd(rest);
  }

  lemma EndIsTrimmed(block: string, end: string)
    requires block != "" && !IsBlank(block[|block| - 1]) && (end == "" || end == "\n")
    ensures TrimEnd(block + end) == block
  {
    var s := block + end;
    var t := TrimEnd(s);
    assert IsBlank('\n');
    assert s[|block| - 1] == block[|block| - 1];
    assert |t| >= |block|;
    assert s[..|block|] == block;
  }

  /** The text of an event's block ends in the last character of its data. */
  predicate EndsInText(data: string) {
    data != "" && !IsBlank(data[|data| - 1])
  }

  lemma LastBlockIsItsFrame(name: string, data: string, end: string)
    requires Clean(name) && Clean(data) && EndsInText(data) && (end == "" || end == "\n")
    ensures TailFrame(BlockText(name, data) + end) == [Frame(Some(name), data)]
    ensures SplitFrames(BlockText(name, data) + end) == ([], BlockText(name, data) + end)
    ensures NoCr(BlockText(name, data) + end)
  {
    hide ParseBlock, SplitFrames, FindBreak, Clean, Normalize, TrimEnd;
    var block := BlockText(name, data);
    BlockHasNoBreak(name, data);
    BlockIsItsFrame(name, data);
    assert block[|block| - 1] == data[|data| - 1];
    EndIsTrimmed(block, end);
    NormalizeFixes(block + end);
    forall k | 0 <= k < |block + end| - 1 ensures !((block + end)[k] == '\n' == (block + end)[k + 1]) {
      if k == |block| - 1 { assert (block + end)[k] == block[k]; }
    }
    NoBreakWithin(block + end);
    SplitStep(block + end);
  }

  lemma {:induction false} FramesConcat(codec: Codec, events: seq<StreamEvent>, last: StreamEvent)
    ensures FramesOf(codec, events + [last]) == FramesOf(codec, events) + [FrameOf(codec, last)]
    decreases |events|
  {
    if events == [] {
      assert [last][1..] == [] && events + [last] == [last];
    } else {
      assert (events + [last])[1..] == events[1..] + [last];
      FramesConcat(codec, events[1..], last);
    }
  }

  /** A stream that breaks off before the blank line after its last event is
      still read to that event, however it is cut. */
  lemma UnterminatedIsRead(codec: Codec, events: seq<StreamEvent>, last: StreamEvent, end: string, chunks: seq<string>)
    requires Exact(codec, events + [last]) && EndsInText(codec.encode(last)) && (end == "" || end == "\n")
    requires Concat(chunks) == StreamText(codec, events) + (BlockText(Discriminator(last), codec.encode(last)) + end)
    ensures ParseResult(codec, chunks) == (Received(events + [last]), false)
  {
    hide Clean, SplitFrames, Normalize, DecodeAll, TailFrame, EndsInText, BlockText, StreamText, Discriminator,
         NormalizeEach, Concat, ExactOn, CleanCuts, NoCr;
    var text, block := StreamText(codec, events), BlockText(Discriminator(last), codec.encode(last)) + end;
    ExactSplits(codec, events, last);
    DiscriminatorIsClean(last);
    LastBlockIsItsFrame(Discriminator(last), codec.encode(last), end);
    WrittenFramesAreRead(codec, events);
    SplitInTwo(text, block);
    assert "" + block == block;
    NoCrConcat(text, block);
    CrFreeCutsAreClean(chunks);
    NormalizeEachIsNormalize(chunks);
    NormalizeFixes(text + block);
    assert FramesOf(codec, events) + [] == FramesOf(codec, events);
    FramesConcat(codec, events, last);
    FramesDecode(codec, events + [last]);
  }

  lemma ExactSplits(codec: Codec, events: seq<StreamEvent>, last: StreamEvent)
    requires Exact(codec, events + [last])
    ensures Exact(codec, events) && ExactOn(codec, last) && Clean(codec.encode(last))
  {
    hide Clean;
    var all := events + [last];
    assert ExactOn(codec, all[|events|]);
    forall k | 0 <= k < |events| ensures ExactOn(codec, events[k]) {
      assert ExactOn(codec, all[k]);
    }
  }

  lemma NoCrConcat(a: string, b: string)
    requires NoCr(a) && NoCr(b)
    ensures NoCr(a + b)
  {
  }
}
