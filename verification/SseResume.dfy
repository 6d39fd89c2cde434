/**
 * The convenience decoder for complete buffers: it returns the frames of a
 * buffer and the rest to put in front of the next one. Its data values are
 * those of the joined buffers, exactly unless a byte order mark at the front
 * of the rest hides a data line.
 */
module SseResume {
  import opened Common
  import opened SseParser
  import opened SseBatch

  /** The characters of the line break at the start of a text. */
  function BreakWidth(text: string): (w: nat)
    requires text != ""
    ensures 1 <= w <= |text|
  {
    if |text| > 1 && text[0] == '\r' && text[1] == '\n' then 2 else 1
  }

  /**
   * The position after the last line break that directly follows another
   * one, or 0 without any; `previousBreak` stands for what precedes the text.
   */
  function RestAt(text: string, previousBreak: bool): (end: nat)
    ensures end <= |text|
    decreases |text|
  {
    if text == "" then 0
    else if IsBreak(text[0]) then
      var w := BreakWidth(text);
      var later := RestAt(text[w..], true);
      if later > 0 then w + later else if previousBreak then w else 0
    else
      var later := RestAt(text[1..], false);
      if later > 0 then 1 + later else 0
  }

  datatype Parsed = Parsed(frames: seq<Frame>, rest: string) | Overflow

  method ParseSseFrames(buffer: string) returns (r: Parsed)
    ensures var fed := Feed(INITIAL, buffer);
            r == if fed.overflow then Overflow else Parsed(fed.frames, buffer[RestAt(buffer, false)..])
  {
    hide Feed;
    hide RestAt;
    var parser := new Parser();
    var pushed := parser.Push(buffer);
    if pushed.Throws? { return Overflow; }
    var end := FindRest(buffer);
    r := Parsed(pushed.frames, buffer[end..]);
  }

  /** The index loop over the buffer. */
  method FindRest(buffer: string) returns (end: nat)
    ensures end == RestAt(buffer, false)
  {
    var previousBreak, index := false, 0;
    end := 0;
    while index < |buffer|
      invariant 0 <= end <= index <= |buffer|
      invariant RestAt(buffer, false) ==
                var later := RestAt(buffer[index..], previousBreak); if later > 0 then index + later else end
    {
      var text := buffer[index..];
      if buffer[index] == '\r' || buffer[index] == '\n' {
        if buffer[index] == '\r' && index + 1 < |buffer| && buffer[index + 1] == '\n' {
          index := index + 1;
        }
        assert text[BreakWidth(text)..] == buffer[index + 1..];
        if previousBreak { end := index + 1; }
        previousBreak := true;
      } else {
        assert text[1..] == buffer[index + 1..];
        previousBreak := false;
      }
      index := index + 1;
    }
  }

  /** A byte order mark that hides the first line, a data line of a block that is closed. */
  predicate BomHidesData(text: string)
  {
    && text != "" && text[0] == BOM
    && var lines := CutLines(text[1..]).lines;
       lines != [] && FieldValue(lines[0], "data").Some? && "" in lines
  }

  /**
   * Decoding can be resumed: the data of `buffer + more` is the data of
   * `buffer` followed by the data of its rest and `more`, exactly unless the
   * rest was cut off in front of a mark that hides a data line.
   */
  lemma Resumable(buffer: string, more: string)
    requires Fits(buffer + more)
    ensures var end := RestAt(buffer, false);
            var whole, first := Feed(INITIAL, buffer + more), Feed(INITIAL, buffer);
            var again := Feed(INITIAL, buffer[end..] + more);
            && Fits(buffer) && Fits(buffer[end..] + more)
            && !whole.overflow && !first.overflow && !again.overflow
            && (DataOf(whole.frames) == DataOf(first.frames) + DataOf(again.frames)
                <==> end == 0 || !BomHidesData(buffer[end..] + more))
  {
    var end := RestAt(buffer, false);
    var rest := buffer[end..] + more;
    OverflowIsSize(buffer + more);
    OverflowIsSize(buffer);
    OverflowIsSize(rest);
    FeedConcat(INITIAL, buffer, more);
    DeliveredBefore(buffer, more, end);
    if end > 0 {
      ClearedResumes(Feed(INITIAL, buffer[..end]).state, rest);
      SamePrefix(DataOf(Feed(INITIAL, buffer).frames), DataOf(Feed(Feed(INITIAL, buffer[..end]).state, rest).frames),
                 DataOf(Feed(INITIAL, rest).frames));
    } else {
      assert buffer[..0] == "";
    }
  }

  /** All frames of the buffer are delivered before its rest. */
  lemma DeliveredBefore(buffer: string, more: string, end: nat)
    requires !Feed(INITIAL, buffer + more).overflow && !Feed(INITIAL, buffer).overflow && end == RestAt(buffer, false)
    ensures var s := Feed(INITIAL, buffer[..end]).state;
            && (end > 0 ==> Cleared(s))
            && !Feed(s, buffer[end..] + more).overflow
            && DataOf(Feed(INITIAL, buffer + more).frames)
               == DataOf(Feed(INITIAL, buffer).frames) + DataOf(Feed(s, buffer[end..] + more).frames)
  {
    RestIsOpen(INITIAL, buffer, false);
    var before, rest := Feed(INITIAL, buffer[..end]), buffer[end..] + more;
    assert buffer[..end] + buffer[end..] == buffer;
    FeedConcat(INITIAL, buffer[..end], buffer[end..]);
    assert Feed(INITIAL, buffer).frames == before.frames;
    ConcatAssociates(buffer[..end], buffer[end..], more);
    FeedConcat(INITIAL, buffer[..end], rest);
    DataOfConcat(before.frames, Feed(before.state, rest).frames);
  }

  lemma SamePrefix(prefix: seq<string>, a: seq<string>, b: seq<string>)
    ensures prefix + a == prefix + b <==> a == b
  {
    assert (prefix + a)[|prefix|..] == a && (prefix + b)[|prefix|..] == b;
  }

  ghost predicate Cleared(s: State)
  {
    s.started && s.line == "" && s.data == [] && s.event == None && s.size == 0
  }

  /** A machine that keeps only an id and a pending LF decodes like a new one. */
  lemma ClearedResumes(s: State, text: string)
    requires Cleared(s) && !Feed(s, text).overflow
    ensures !Feed(INITIAL, text).overflow
    ensures DataOf(Feed(s, text).frames) == DataOf(Feed(INITIAL, text).frames) <==> !BomHidesData(text)
  {
    if text != "" {
      if text[0] == BOM {
        MarkAsText(s, text);
      } else {
        ClearedStep(s, text[0]);
        SameData(Step(s, text[0]).state, Step(INITIAL, text[0]).state, text[1..]);
        assert forall frames: seq<Frame> :: [] + frames == frames;
      }
    }
  }

  lemma ClearedStep(s: State, c: char)
    requires Cleared(s) && c != BOM
    ensures var a, b := Step(s, c), Step(INITIAL, c);
            a.frames == b.frames == [] && a.overflow == b.overflow == false &&
              a.state.(id := None) == b.state.(id := None)
  {
  }

  /** A mark after the start of a stream is text: it only matters when it hides a data line. */
  lemma MarkAsText(s: State, text: string)
    requires Cleared(s) && text != "" && text[0] == BOM && !Feed(s, text).overflow
    ensures !Feed(INITIAL, text).overflow
    ensures DataOf(Feed(s, text).frames) == DataOf(Feed(INITIAL, text).frames) <==> !BomHidesData(text)
  {
    hide Step;
    hide Feed;
    hide Fold;
    hide Fit;
    hide CutLines;
    hide LinesAhead;
    hide RawData;
    hide DataOf;
    var cut := CutLines(text[1..]);
    FeedIsFold(s, text);
    MarkAhead(s, text);
    FeedFromStart(text);
    DataOfFold(Prepend([BOM], cut).lines, [], s.id, None);
    DataOfFold(cut.lines, [], None, None);
    MarkedLines(cut);
  }

  lemma MarkAhead(s: State, text: string)
    requires s.line == "" && text != "" && text[0] == BOM
    ensures LinesAhead(s, text) == Prepend([BOM], CutLines(text[1..]))
  {
    PrependNothing(CutLines(text));
  }

  /** The lines with the mark in front of the first one. */
  lemma MarkedLines(cut: Cut)
    ensures var marked := Prepend([BOM], cut);
            && (Fit(marked.lines, marked.tail, 0) ==> Fit(cut.lines, cut.tail, 0))
            && (RawData(marked.lines, []) == RawData(cut.lines, []) <==>
                !(cut.lines != [] && FieldValue(cut.lines[0], "data").Some? && "" in cut.lines))
  {
    if cut.lines != [] {
      var first, rest := cut.lines[0], cut.lines[1..];
      assert cut.lines == [first] + rest;
      var marked := Prepend([BOM], cut);
      assert marked.lines[0] == [BOM] + first && marked.lines[1..] == rest;
      if Fit(marked.lines, marked.tail, 0) {
        FitUsesLess(rest, cut.tail, |first|, 1 + |first|);
        FitUsesLess(rest, cut.tail, 0, 1 + |first|);
      }
      OneLineFields([BOM] + first, None, None);
      assert ([BOM] + first)[0] != "data:"[0];
      assert DataValues([[BOM] + first]) == [];
      OneLineFields(first, None, None);
      assert [] + DataValues([first]) == DataValues([first]);
      if FieldValue(first, "data").Some? {
        var v := FieldValue(first, "data").value;
        ExtraValueShows(rest, v, []);
        assert [v] + [] == [v];
      }
    }
  }

  lemma FitUsesLess(lines: seq<string>, tail: string, less: nat, used: nat)
    requires less <= used && Fit(lines, tail, used)
    ensures Fit(lines, tail, less)
    decreases |lines|
  {
  }

  /** One more value in the open block changes the data as soon as the block is closed. */
  lemma ExtraValueShows(lines: seq<string>, v: string, data: seq<string>)
    ensures RawData(lines, [v] + data) == RawData(lines, data) <==> "" !in lines
    decreases |lines|
  {
    if lines != [] {
      if lines[0] == "" {
        assert ([v] + data)[1..] == data;
        if data != [] {
          assert |Join([v] + data, '\n')| > |Join(data, '\n')|;
          assert RawData(lines, [v] + data)[0] != RawData(lines, data)[0];
        } else {
          assert |RawData(lines, [v] + data)| == 1 + |RawData(lines, data)|;
        }
      } else {
        var values := DataValues([lines[0]]);
        assert [v] + data + values == [v] + (data + values);
        ExtraValueShows(lines[1..], v, data + values);
      }
    }
  }

  /** The id never reaches the data. */
  lemma SameData(a: State, b: State, text: string)
    requires a.(id := None) == b.(id := None)
    ensures Feed(a, text).overflow == Feed(b, text).overflow
    ensures DataOf(Feed(a, text).frames) == DataOf(Feed(b, text).frames)
    decreases |text|
  {
    if text != "" {
      SameStep(a, b, text[0]);
      var p, q := Step(a, text[0]), Step(b, text[0]);
      if !p.overflow {
        SameData(p.state, q.state, text[1..]);
        DataOfConcat(p.frames, Feed(p.state, text[1..]).frames);
        DataOfConcat(q.frames, Feed(q.state, text[1..]).frames);
      }
    }
  }

  lemma SameStep(a: State, b: State, c: char)
    requires a.(id := None) == b.(id := None)
    ensures var p, q := Step(a, c), Step(b, c);
            p.state.(id := None) == q.state.(id := None) && p.overflow == q.overflow &&
              DataOf(p.frames) == DataOf(q.frames)
  {
    hide FieldOf;
    hide ValueOf;
  }

  /** A position of a text at which the machine holds nothing, or 0, and after which nothing is delivered. */
  ghost predicate Open(s: State, text: string, end: nat)
    requires end <= |text|
  {
    var before := Feed(s, text[..end]);
    && !before.overflow
    && (end > 0 ==> Cleared(before.state))
    && Feed(before.state, text[end..]).frames == []
  }

  /** An open position of the text after `w` characters is one of the whole text. */
  lemma OpenLater(s: State, text: string, w: nat, later: nat)
    requires w <= |text| && later <= |text| - w
    requires !Feed(s, text[..w]).overflow
    requires Open(Feed(s, text[..w]).state, text[w..], later)
    ensures later > 0 ==> Open(s, text, w + later)
    ensures later == 0 && Cleared(Feed(s, text[..w]).state) ==> Open(s, text, w)
    ensures later == 0 && Feed(s, text[..w]).frames == [] ==> Open(s, text, 0)
  {
    var next, tail := Feed(s, text[..w]).state, text[w..];
    FeedConcat(s, text[..w], tail[..later]);
    assert text[..w] + tail[..later] == text[..w + later] && tail[later..] == text[w + later..];
    if later == 0 {
      assert text[..0] == "" && text[0..] == text == text[..w] + tail;
      FeedConcat(s, text[..w], tail);
    }
  }

  /**
   * The position found by the scan is right: the machine holds nothing there,
   * and the rest of the text delivers nothing.
   */
  lemma {:induction false} RestIsOpen(s: State, text: string, previousBreak: bool)
    requires !Feed(s, text).overflow
    requires s.skipLf ==> s.started && (text != "" ==> text[0] != '\n')
    requires if previousBreak then s.line == "" && s.started else s.line == "" ==> s.data == []
    ensures Open(s, text, RestAt(text, previousBreak))
    decreases |text|
  {
    hide Feed;
    hide Open;
    if text == "" {
      NothingIsOpen(s);
    } else {
      var w := if IsBreak(text[0]) then BreakWidth(text) else 1;
      ScanFirst(s, text, w);
      var next, tail := Feed(s, text[..w]).state, text[w..];
      assert tail != "" ==> tail[0] == text[w];
      RestIsOpen(next, tail, IsBreak(text[0]));
      OpenLater(s, text, w, RestAt(tail, IsBreak(text[0])));
    }
  }

  lemma NothingIsOpen(s: State)
    ensures Open(s, "", 0)
  {
  }

  /** One character, or one line break, of the scan. */
  lemma ScanFirst(s: State, text: string, w: nat)
    requires text != "" && w == if IsBreak(text[0]) then BreakWidth(text) else 1
    requires s.skipLf ==> text[0] != '\n' && s.started
    requires !Feed(s, text).overflow
    ensures var next := Feed(s, text[..w]);
            && !next.overflow && !Feed(next.state, text[w..]).overflow
            && Scanned(s, text[0], next)
            && (next.state.skipLf && |text| > w ==> text[w] != '\n')
  {
    hide Step;
    hide Feed;
    assert text[..w] + text[w..] == text;
    FeedConcat(s, text[..w], text[w..]);
    if w == 1 {
      assert text[..1] == [text[0]];
      ScanOne(s, text[0]);
    } else {
      assert text[..2] == "\r\n";
      ScanPair(s);
    }
  }

  lemma ScanOne(s: State, c: char)
    requires s.skipLf ==> c != '\n' && s.started
    ensures Scanned(s, c, Feed(s, [c])) && Feed(s, [c]).state.skipLf == (c == '\r')
  {
    FeedOne(s, c);
    StepScanned(s, c);
  }

  lemma ScanPair(s: State)
    requires s.skipLf ==> s.started
    ensures Scanned(s, '\r', Feed(s, "\r\n")) && !Feed(s, "\r\n").state.skipLf
  {
    assert "\r\n" == "\r" + "\n";
    FeedConcat(s, "\r", "\n");
    FeedOne(s, '\r');
    var first := Step(s, '\r');
    StepScanned(s, '\r');
    FeedOne(first.state, '\n');
    assert Then(first, Fed(first.state.(skipLf := false), [], false)).frames == first.frames;
  }

  /** What one character does to the lines of a machine. */
  ghost predicate Scanned(s: State, c: char, next: Fed)
  {
    && next.state.started
    && (IsBreak(c) ==> next.state.line == "")
    && (IsBreak(c) && s.line == "" ==> Cleared(next.state))
    && (IsBreak(c) && (s.line == "" ==> s.data == []) ==> next.frames == [])
    && (!IsBreak(c) ==> next.frames == [])
    && (!IsBreak(c) && next.state.line == "" ==> s.line == "" && !s.started && next.state.data == s.data)
  }

  lemma StepScanned(s: State, c: char)
    requires !(s.skipLf && c == '\n')
    ensures Scanned(s, c, Step(s, c))
    ensures s.skipLf ==> s.started ==> Step(s, c).state.skipLf == (c == '\r')
    ensures !s.skipLf ==> Step(s, c).state.skipLf == (c == '\r')
  {
  }
}
