/**
 * The event-stream format read in one go: drop one leading byte order mark,
 * cut lines at CRLF, CR or LF, group lines by blank lines, and join the data
 * values of a group with LF. The character machine is shown to compute it.
 */
module SseBatch {
  import opened Common
  import opened SseParser

  /** The complete lines of a text and the unterminated rest. */
  datatype Cut = Cut(lines: seq<string>, tail: string)

  /** The text after a break character, taking CRLF as one break. */
  function AfterBreak(b: char, rest: string): string
  {
    if b == '\r' && rest != "" && rest[0] == '\n' then rest[1..] else rest
  }

  /** Text in front of the first line. */
  function Prepend(text: string, cut: Cut): Cut
  {
    if cut.lines == [] then Cut([], text + cut.tail)
    else Cut([text + cut.lines[0]] + cut.lines[1..], cut.tail)
  }

  function CutLines(text: string): Cut
    decreases |text|
  {
    if text == "" then Cut([], "")
    else if IsBreak(text[0]) then
      var rest := CutLines(AfterBreak(text[0], text[1..]));
      Cut([""] + rest.lines, rest.tail)
    else
      Prepend([text[0]], CutLines(text[1..]))
  }

  /** The groups of lines that a blank line closes. */
  function Blocks(lines: seq<string>): seq<seq<string>>
  {
    if lines == [] then []
    else
      var rest := Blocks(lines[1..]);
      if lines[0] == "" then [[]] + rest
      else if rest == [] then []
      else [[lines[0]] + rest[0]] + rest[1..]
  }

  /** The lines after the last blank line. */
  function OpenBlock(lines: seq<string>): seq<string>
  {
    if "" in lines then OpenBlock(lines[1..]) else lines
  }

  /** The value of a line for a named field, or nothing when the line is another field's. */
  function FieldValue(line: string, name: string): Option<string>
  {
    if line == name then Some("")
    else if name + ":" <= line then
      var value := line[|name| + 1..];
      Some(if value != "" && value[0] == ' ' then value[1..] else value)
    else None
  }

  function DataValues(block: seq<string>): seq<string>
  {
    if block == [] then []
    else
      var value := FieldValue(block[0], "data");
      (if value.Some? then [value.value] else []) + DataValues(block[1..])
  }

  /** The last id of a block that has no NUL, else the id in force before it. */
  function LastId(block: seq<string>, before: Option<string>): Option<string>
  {
    if block == [] then before
    else
      var value := FieldValue(block[0], "id");
      LastId(block[1..], if value.Some? && '\0' !in value.value then value else before)
  }

  function LastEvent(block: seq<string>, before: Option<string>): Option<string>
  {
    if block == [] then before
    else
      var value := FieldValue(block[0], "event");
      LastEvent(block[1..], if value.Some? then value else before)
  }

  /** One frame for every block that has data; the id carries over between blocks. */
  function BlockFrames(blocks: seq<seq<string>>, id: Option<string>): seq<Frame>
  {
    if blocks == [] then []
    else
      var values := DataValues(blocks[0]);
      var id' := LastId(blocks[0], id);
      (if values == [] then [] else [Frame(Join(values, '\n'), id', LastEvent(blocks[0], None))])
      + BlockFrames(blocks[1..], id')
  }

  /** The frames of a whole text. */
  function Frames(text: string): seq<Frame>
  {
    BlockFrames(Blocks(CutLines(DropBom(text)).lines), None)
  }

  function Total(lines: seq<string>): nat
  {
    if lines == [] then 0 else |lines[0]| + Total(lines[1..])
  }

  /** Every block, and the unterminated rest, is within the size limit. */
  predicate Fits(text: string)
  {
    var cut := CutLines(DropBom(text));
    && (forall block | block in Blocks(cut.lines) :: Total(block) <= MAX_FRAME_CHARS)
    && Total(OpenBlock(cut.lines)) + |cut.tail| <= MAX_FRAME_CHARS
  }

  /**
   * The decoder and the batch definition agree: for every text and every way
   * of cutting it into pieces, `push` throws exactly when a block is too
   * large, and otherwise delivers exactly the frames of the whole text.
   */
  lemma DecoderIsBatch(pieces: seq<string>)
    ensures PushAll(INITIAL, pieces).overflow <==> !Fits(Flatten(pieces))
    ensures Fits(Flatten(pieces)) ==> PushAll(INITIAL, pieces).frames == Frames(Flatten(pieces))
  {
    var text := Flatten(pieces);
    PushAllIsFeed(INITIAL, pieces);
    FeedFromStart(text);
    var cut := CutLines(DropBom(text));
    FoldIsBlocks(cut.lines, [], None, None);
    FramesAfterNothing(Blocks(cut.lines), None);
    FitsIsFit(text);
  }

  /** What follows the last blank line delivers nothing. */
  lemma UnterminatedTailIsSilent(text: string, tail: string)
    requires forall c | c in tail :: !IsBreak(c)
    requires Fits(text + tail)
    ensures Feed(INITIAL, text + tail).frames == Feed(INITIAL, text).frames
  {
    FeedConcat(INITIAL, text, tail);
    FeedFromStart(text + tail);
    FitsIsFit(text + tail);
    SilentFeed(Feed(INITIAL, text).state, tail);
  }

  lemma SilentFeed(s: State, text: string)
    requires forall c | c in text :: !IsBreak(c)
    ensures Feed(s, text).frames == []
    decreases |text|
  {
    if text != "" {
      assert text[0] in text;
      SilentFeed(Step(s, text[0]).state, text[1..]);
    }
  }

  // ---- characters to lines ----

  /** The frames of a run of complete lines, line by line. */
  function Fold(lines: seq<string>, data: seq<string>, id: Option<string>, event: Option<string>): seq<Frame>
    decreases |lines|
  {
    if lines == [] then []
    else if lines[0] == "" then
      (if data == [] then [] else [Frame(Join(data, '\n'), id, event)]) + Fold(lines[1..], [], id, None)
    else
      Fold(lines[1..], data + DataValues([lines[0]]), LastId([lines[0]], id), LastEvent([lines[0]], event))
  }

  /** The size limit over a run of lines with `used` characters already in the open block. */
  predicate Fit(lines: seq<string>, tail: string, used: nat)
    decreases |lines|
  {
    if lines == [] then used + |tail| <= MAX_FRAME_CHARS
    else if lines[0] == "" then Fit(lines[1..], tail, 0)
    else used + |lines[0]| <= MAX_FRAME_CHARS && Fit(lines[1..], tail, used + |lines[0]|)
  }

  /** A field recognised through its first colon is a field recognised by its name. */
  lemma FieldByName(line: string, name: string)
    requires ':' !in name
    ensures FieldValue(line, name).Some? <==> FieldOf(line) == name
    ensures FieldOf(line) == name ==> FieldValue(line, name) == Some(ValueOf(line))
  {
    var colon := IndexOf(line, ':');
    if FieldOf(line) == name {
      assert |name| == colon;
      if colon == |line| {
        assert line == name;
      } else {
        assert line[..colon + 1] == name + ":";
      }
    }
    if line == name {
      assert colon == |line|;
    } else if name + ":" <= line {
      assert line[|name|] == ':';
      assert colon <= |name|;
      assert colon == |name|;
      assert line[..colon] == name;
    }
  }

  /** The end of a line acts on the fields exactly as the batch definition reads them. */
  lemma EndLineFields(s: State)
    requires s.line != ""
    ensures EndLine(s) == Fed(s.(line := "", data := s.data + DataValues([s.line]),
                                 id := LastId([s.line], s.id), event := LastEvent([s.line], s.event)), [], false)
  {
    FieldByName(s.line, "data");
    FieldByName(s.line, "id");
    FieldByName(s.line, "event");
    OneLineFields(s.line, s.id, s.event);
  }

  /** The fields of one line. */
  lemma OneLineFields(line: string, id: Option<string>, event: Option<string>)
    ensures DataValues([line]) == var v := FieldValue(line, "data"); if v.Some? then [v.value] else []
    ensures LastId([line], id) == var v := FieldValue(line, "id"); if v.Some? && '\0' !in v.value then v else id
    ensures LastEvent([line], event) == var v := FieldValue(line, "event"); if v.Some? then v else event
  {
    assert [line][1..] == [];
  }

  ghost predicate Between(s: State)
  {
    s.started && |s.line| <= s.size <= MAX_FRAME_CHARS
  }

  /** The lines that the open line of a state and the text after it make together. */
  function LinesAhead(s: State, text: string): Cut
  {
    Prepend(s.line, CutLines(if s.skipLf then AfterBreak('\r', text) else text))
  }

  /** A result for the lines `cut`, of which the first already has its beginning in the state. */
  ghost predicate Agrees(s: State, fed: Fed, cut: Cut)
    requires |s.line| <= s.size
  {
    && (fed.overflow <==> !Fit(cut.lines, cut.tail, s.size - |s.line|))
    && (!fed.overflow ==> fed.frames == Fold(cut.lines, s.data, s.id, s.event))
  }

  /** What a started machine makes of a text, in terms of complete lines. */
  ghost predicate ReadsLines(s: State, text: string)
    requires Between(s)
  {
    Agrees(s, Feed(s, text), LinesAhead(s, text))
  }

  /** A break character: the open line is complete, and reading goes on after the break. */
  lemma BreakAhead(s: State, text: string)
    requires text != "" && IsBreak(text[0]) && !(s.skipLf && text[0] == '\n')
    ensures var next := Step(s.(started := true), text[0]).state;
            && next.line == ""
            && LinesAhead(s, text) ==
              Cut([s.line] + LinesAhead(next, text[1..]).lines, LinesAhead(next, text[1..]).tail)
  {
    var rest := CutLines(AfterBreak(text[0], text[1..]));
    assert CutLines(text) == Cut([""] + rest.lines, rest.tail);
    assert s.line + "" == s.line;
    PrependNothing(rest);
  }

  lemma PrependNothing(cut: Cut)
    ensures Prepend("", cut) == cut
  {
    assert "" + cut.tail == cut.tail;
    if cut.lines != [] {
      assert "" + cut.lines[0] == cut.lines[0];
      assert [cut.lines[0]] + cut.lines[1..] == cut.lines;
    }
  }

  lemma FoldCons(line: string, rest: Cut, data: seq<string>, id: Option<string>, event: Option<string>, used: nat)
    ensures line == "" ==>
              && Fold([line] + rest.lines, data, id, event)
                 == (if data == [] then [] else [Frame(Join(data, '\n'), id, event)]) + Fold(rest.lines, [], id, None)
              && (Fit([line] + rest.lines, rest.tail, used) <==> Fit(rest.lines, rest.tail, 0))
    ensures line != "" ==>
              && Fold([line] + rest.lines, data, id, event)
                 == Fold(rest.lines, data + DataValues([line]), LastId([line], id), LastEvent([line], event))
              && (Fit([line] + rest.lines, rest.tail, used) <==>
                  used + |line| <= MAX_FRAME_CHARS && Fit(rest.lines, rest.tail, used + |line|))
  {
    assert ([line] + rest.lines)[0] == line && ([line] + rest.lines)[1..] == rest.lines;
  }

  /** The result on a break character, in the terms of the batch definition. */
  ghost predicate EndsLine(s: State, next: Fed)
  {
    && !next.overflow && next.state.line == ""
    && (s.line == "" ==>
          && next.frames == (if s.data == [] then [] else [Frame(Join(s.data, '\n'), s.id, s.event)])
          && next.state == s.(data := [], event := None, size := 0, skipLf := next.state.skipLf))
    && (s.line != "" ==>
          && next.frames == []
          && next.state == s.(line := "", data := s.data + DataValues([s.line]), id := LastId([s.line], s.id),
                              event := LastEvent([s.line], s.event), skipLf := next.state.skipLf))
  }

  lemma BreakStep(s: State, c: char)
    requires Between(s) && IsBreak(c) && !(s.skipLf && c == '\n')
    ensures EndsLine(s, Step(s, c)) && Between(Step(s, c).state)
  {
    if s.line != "" {
      EndLineFields(s.(skipLf := c == '\r'));
    }
  }

  /** Ending a line and going on agrees with the line followed by the others. */
  lemma LineThenRest(s: State, next: Fed, rest: Fed, cut: Cut)
    requires |s.line| <= s.size <= MAX_FRAME_CHARS && EndsLine(s, next) && Agrees(next.state, rest, cut)
    ensures Agrees(s, Fed(rest.state, next.frames + rest.frames, rest.overflow), Cut([s.line] + cut.lines, cut.tail))
  {
    FoldCons(s.line, cut, s.data, s.id, s.event, s.size - |s.line|);
  }

  lemma BreakReadsLines(s: State, text: string)
    requires Between(s) && text != "" && IsBreak(text[0]) && !(s.skipLf && text[0] == '\n')
    requires Between(Step(s, text[0]).state) && ReadsLines(Step(s, text[0]).state, text[1..])
    ensures ReadsLines(s, text)
  {
    var first := Step(s, text[0]);
    BreakStep(s, text[0]);
    BreakAhead(s, text);
    assert s.(started := true) == s;
    LineThenRest(s, first, Feed(first.state, text[1..]), LinesAhead(first.state, text[1..]));
  }

  /** Any other character joins the open line. */
  lemma CharAhead(s: State, text: string)
    requires text != "" && !IsBreak(text[0])
    ensures LinesAhead(s, text) == LinesAhead(s.(line := s.line + [text[0]], skipLf := false), text[1..])
  {
    var rest := CutLines(text[1..]);
    assert s.line + ([text[0]] + rest.tail) == s.line + [text[0]] + rest.tail;
    if rest.lines != [] {
      assert s.line + ([text[0]] + rest.lines[0]) == s.line + [text[0]] + rest.lines[0];
    }
  }

  /** A longer open line agrees with the same lines. */
  lemma CharThenRest(s: State, c: char, rest: Fed, cut: Cut)
    requires Between(s) && s.size + 1 <= MAX_FRAME_CHARS
    requires Agrees(s.(line := s.line + [c], size := s.size + 1), rest, cut)
    ensures Agrees(s, rest, cut)
  {
  }

  /** A line that is already too long does not fit. */
  lemma Overlong(line: string, cut: Cut, used: nat)
    requires line != "" && used + |line| > MAX_FRAME_CHARS
    ensures var ahead := Prepend(line, cut); !Fit(ahead.lines, ahead.tail, used)
  {
  }

  lemma CharReadsLines(s: State, text: string)
    requires Between(s) && text != "" && !IsBreak(text[0])
    requires var first := Step(s, text[0]);
      first.overflow || (Between(first.state) && ReadsLines(first.state, text[1..]))
    ensures ReadsLines(s, text)
  {
    hide EndLine;
    hide Fold;
    hide Fit;
    CharAhead(s, text);
    var next := s.(line := s.line + [text[0]], size := s.size + 1, skipLf := false);
    var first := Step(s, text[0]);
    assert first == Fed(next, [], s.size + 1 > MAX_FRAME_CHARS);
    if first.overflow {
      Overlong(s.line + [text[0]], CutLines(text[1..]), s.size - |s.line|);
    } else {
      var rest := Feed(next, text[1..]);
      assert [] + rest.frames == rest.frames;
      CharThenRest(s.(skipLf := false), text[0], rest, LinesAhead(s, text));
    }
  }

  /** A started machine reads the lines that its open line and the text make together. */
  lemma {:induction false} FeedIsFold(s: State, text: string)
    requires Between(s)
    ensures ReadsLines(s, text)
    decreases |text|
  {
    if text == "" {
      assert s.line + "" == s.line;
    } else if s.skipLf && text[0] == '\n' {
      FeedIsFold(s.(skipLf := false), text[1..]);
    } else if IsBreak(text[0]) {
      BreakStep(s, text[0]);
      FeedIsFold(Step(s, text[0]).state, text[1..]);
      BreakReadsLines(s, text);
    } else {
      if !Step(s, text[0]).overflow {
        FeedIsFold(Step(s, text[0]).state, text[1..]);
      }
      CharReadsLines(s, text);
    }
  }

  lemma FeedFromStart(text: string)
    ensures var cut := CutLines(DropBom(text));
            && (Feed(INITIAL, text).overflow <==> !Fit(cut.lines, cut.tail, 0))
            && (!Feed(INITIAL, text).overflow ==> Feed(INITIAL, text).frames == Fold(cut.lines, [], None, None))
  {
    var started := INITIAL.(started := true);
    PrependNothing(CutLines(DropBom(text)));
    FeedIsFold(started, DropBom(text));
    if text != "" && text[0] != BOM {
      assert Step(INITIAL, text[0]) == Step(started, text[0]);
    }
  }

  // ---- data values ----

  function DataOf(frames: seq<Frame>): seq<string>
  {
    if frames == [] then [] else [frames[0].data] + DataOf(frames[1..])
  }

  lemma DataOfConcat(a: seq<Frame>, b: seq<Frame>)
    ensures DataOf(a + b) == DataOf(a) + DataOf(b)
  {
    if a == [] {
      assert a + b == b;
    } else {
      assert (a + b)[0] == a[0] && (a + b)[1..] == a[1..] + b;
      DataOfConcat(a[1..], b);
    }
  }

  /** The data of a run of complete lines when the open block already holds some values. */
  function RawData(lines: seq<string>, data: seq<string>): seq<string>
    decreases |lines|
  {
    if lines == [] then []
    else if lines[0] == "" then (if data == [] then [] else [Join(data, '\n')]) + RawData(lines[1..], [])
    else RawData(lines[1..], data + DataValues([lines[0]]))
  }

  /** The data of a run of lines does not depend on ids or events. */
  lemma {:induction false} DataOfFold(lines: seq<string>, data: seq<string>, id: Option<string>, event: Option<string>)
    ensures DataOf(Fold(lines, data, id, event)) == RawData(lines, data)
    decreases |lines|
  {
    if lines != [] {
      if lines[0] == "" {
        DataOfFold(lines[1..], [], id, None);
        var first: seq<Frame> := if data == [] then [] else [Frame(Join(data, '\n'), id, event)];
        DataOfConcat(first, Fold(lines[1..], [], id, None));
        assert |first| == 1 ==> first[1..] == [];
      } else {
        DataOfFold(lines[1..], data + DataValues([lines[0]]), LastId([lines[0]], id), LastEvent([lines[0]], event));
      }
    }
  }

  // ---- lines to blocks ----

  /** The frames of blocks when the first one already holds some fields. */
  function FramesAfter(
    blocks: seq<seq<string>>, data: seq<string>, id: Option<string>, event: Option<string>): seq<Frame>
  {
    if blocks == [] then []
    else
      var values := data + DataValues(blocks[0]);
      var id' := LastId(blocks[0], id);
      (if values == [] then [] else [Frame(Join(values, '\n'), id', LastEvent(blocks[0], event))])
      + BlockFrames(blocks[1..], id')
  }

  lemma {:induction false} FoldIsBlocks(
    lines: seq<string>, data: seq<string>, id: Option<string>, event: Option<string>)
    ensures Fold(lines, data, id, event) == FramesAfter(Blocks(lines), data, id, event)
    decreases |lines|
  {
    if lines != [] {
      var rest := Blocks(lines[1..]);
      if lines[0] == "" {
        FoldIsBlocks(lines[1..], [], id, None);
        FramesAfterNothing(rest, id);
        assert data + DataValues([]) == data;
        assert ([[]] + rest)[1..] == rest;
      } else {
        var head := [lines[0]];
        FoldIsBlocks(lines[1..], data + DataValues(head), LastId(head, id), LastEvent(head, event));
        if rest != [] {
          FieldsConcat(lines[0], rest[0], data, id, event);
        }
      }
    }
  }

  lemma FramesAfterNothing(blocks: seq<seq<string>>, id: Option<string>)
    ensures FramesAfter(blocks, [], id, None) == BlockFrames(blocks, id)
  {
    if blocks != [] {
      assert [] + DataValues(blocks[0]) == DataValues(blocks[0]);
    }
  }

  lemma FieldsConcat(line: string, block: seq<string>, data: seq<string>, id: Option<string>, event: Option<string>)
    ensures data + DataValues([line] + block) == data + DataValues([line]) + DataValues(block)
    ensures LastId([line] + block, id) == LastId(block, LastId([line], id))
    ensures LastEvent([line] + block, event) == LastEvent(block, LastEvent([line], event))
  {
    var both := [line] + block;
    assert both[0] == line && both[1..] == block;
    assert [line][1..] == [];
  }

  lemma {:induction false} FitIsBlocks(lines: seq<string>, tail: string, used: nat)
    requires used <= MAX_FRAME_CHARS
    ensures var blocks := Blocks(lines);
            Fit(lines, tail, used) <==>
            && (blocks == [] ==> used + Total(OpenBlock(lines)) + |tail| <= MAX_FRAME_CHARS)
            && (blocks != [] ==>
                  && used + Total(blocks[0]) <= MAX_FRAME_CHARS
                  && (forall block | block in blocks[1..] :: Total(block) <= MAX_FRAME_CHARS)
                  && Total(OpenBlock(lines)) + |tail| <= MAX_FRAME_CHARS)
    decreases |lines|
  {
    if lines != [] {
      var rest := Blocks(lines[1..]);
      BlocksNeedBlank(lines);
      BlocksNeedBlank(lines[1..]);
      if lines[0] == "" {
        FitIsBlocks(lines[1..], tail, 0);
        assert ([[]] + rest)[1..] == rest;
        assert rest != [] ==> rest == [rest[0]] + rest[1..];
      } else {
        if used + |lines[0]| <= MAX_FRAME_CHARS {
          FitIsBlocks(lines[1..], tail, used + |lines[0]|);
        }
        if rest != [] {
          assert Total([lines[0]] + rest[0]) == |lines[0]| + Total(rest[0]) by {
            assert ([lines[0]] + rest[0])[1..] == rest[0];
          }
          assert ([[lines[0]] + rest[0]] + rest[1..])[1..] == rest[1..];
        }
      }
    }
  }

  /** The machine overflows exactly on the texts that do not fit. */
  lemma OverflowIsSize(text: string)
    ensures Feed(INITIAL, text).overflow <==> !Fits(text)
  {
    FeedFromStart(text);
    FitsIsFit(text);
  }

  lemma FitsIsFit(text: string)
    ensures var cut := CutLines(DropBom(text)); Fits(text) <==> Fit(cut.lines, cut.tail, 0)
  {
    var cut := CutLines(DropBom(text));
    FitIsBlocks(cut.lines, cut.tail, 0);
    var blocks := Blocks(cut.lines);
    if blocks != [] {
      assert blocks == [blocks[0]] + blocks[1..];
    }
  }

  lemma BlocksNeedBlank(lines: seq<string>)
    ensures Blocks(lines) == [] <==> "" !in lines
  {
  }
}
