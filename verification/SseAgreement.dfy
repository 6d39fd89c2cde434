/**
 * The two event-stream readers agree: on every text that the Python reader
 * accepts, the TypeScript decoder accepts it too and both give the same data.
 */
module SseAgreement {
  import opened Common
  import opened SseParser
  import opened SseBatch
  import Py = SsePython

  // ---- cutting the stream into pieces ----

  /**
   * The empty pieces that lose a CRLF pair: a piece ends with CR, only empty
   * pieces follow, and the next text starts with LF. `held` says that the
   * reader remembers a CR, `lost` that an empty piece made it forget one.
   */
  function Gaps(pieces: seq<string>, held: bool, lost: bool): nat
  {
    if pieces == [] then 0
    else if pieces[0] == "" then Gaps(pieces[1..], false, held || lost)
    else (if lost && Py.StartsLf(pieces[0]) then 1 else 0) + Gaps(pieces[1..], Py.EndsCr(pieces[0]), false)
  }

  /** All the text that the reader puts into its buffer. */
  function Buffered(pieces: seq<string>, pending: bool): string
    decreases |pieces|
  {
    if pieces == [] then ""
    else Py.Normal(pending, pieces[0]) + Buffered(pieces[1..], Py.EndsCr(pieces[0]))
  }

  /** The pieces with one more LF in front of every LF that a gap tears from its CR. */
  function WithExtraLf(pieces: seq<string>, held: bool, lost: bool): seq<string>
  {
    if pieces == [] then []
    else if pieces[0] == "" then [""] + WithExtraLf(pieces[1..], false, held || lost)
    else
      [if lost && Py.StartsLf(pieces[0]) then "\n" + pieces[0] else pieces[0]]
      + WithExtraLf(pieces[1..], Py.EndsCr(pieces[0]), false)
  }

  /**
   * The reader's text is the normalised stream with one extra LF at each gap,
   * so it is right exactly when no empty piece splits a CRLF pair.
   */
  lemma {:induction false} GapsAreExtraBreaks(pieces: seq<string>, held: bool, lost: bool)
    requires !(held && lost)
    ensures Buffered(pieces, held) == Py.Normal(held || lost, Flatten(WithExtraLf(pieces, held, lost)))
    ensures var text := Py.Normal(held || lost, Flatten(pieces));
            && |Buffered(pieces, held)| == |text| + Gaps(pieces, held, lost)
            && (Buffered(pieces, held) == text <==> Gaps(pieces, held, lost) == 0)
    decreases |pieces|
  {
    if pieces != [] {
      var piece, rest := pieces[0], pieces[1..];
      if piece == "" {
        GapsAreExtraBreaks(rest, false, held || lost);
        ExtraLfCons("", WithExtraLf(rest, false, held || lost));
        assert "" + Flatten(rest) == Flatten(rest);
        assert "" + Buffered(rest, false) == Buffered(rest, false);
      } else {
        GapsAreExtraBreaks(rest, Py.EndsCr(piece), false);
        OnePiece(piece, held, lost, Flatten(rest), Flatten(WithExtraLf(rest, Py.EndsCr(piece), false)));
        ExtraLfCons(if lost && Py.StartsLf(piece) then "\n" + piece
          else piece, WithExtraLf(rest, Py.EndsCr(piece), false));
      }
    }
  }

  lemma ExtraLfCons(piece: string, rest: seq<string>)
    ensures Flatten([piece] + rest) == piece + Flatten(rest)
    ensures piece == "" ==> Flatten([piece] + rest) == Flatten(rest)
  {
    assert ([piece] + rest)[1..] == rest;
  }

  /** One piece that is not empty, in front of the rest of the stream and of the rest with its extra LFs. */
  lemma OnePiece(piece: string, held: bool, lost: bool, rest: string, extra: string)
    requires piece != "" && !(held && lost)
    ensures var gap := lost && Py.StartsLf(piece);
      && Py.Normal(held, piece) + Py.Normal(Py.EndsCr(piece), extra)
         == Py.Normal(held || lost, (if gap then "\n" + piece else piece) + extra)
      && Py.Normal(held || lost, piece + rest) == Py.Normal(held || lost, piece) + Py.Normal(Py.EndsCr(piece), rest)
      && (if gap then Py.Normal(held, piece) == "\n" + Py.Normal(true, piece)
          else Py.Normal(held, piece) == Py.Normal(held || lost, piece))
  {
    var gap := lost && Py.StartsLf(piece);
    var written := if gap then "\n" + piece else piece;
    Py.NormalConcat(held || lost, piece, rest);
    Py.NormalConcat(held || lost, written, extra);
    if gap {
      assert written[1..] == piece && written[|written| - 1] == piece[|piece| - 1];
      assert Py.Normal(true, written) == Py.Normal(false, piece);
    }
  }

  /** The pieces without the byte order mark of the stream. */
  function StripMark(pieces: seq<string>): seq<string>
  {
    if pieces == [] then []
    else if pieces[0] == "" then [""] + StripMark(pieces[1..])
    else [DropBom(pieces[0])] + pieces[1..]
  }

  lemma StripMarkFacts(pieces: seq<string>)
    ensures Flatten(StripMark(pieces)) == DropBom(Flatten(pieces))
    ensures Gaps(StripMark(pieces), false, false) == Gaps(pieces, false, false)
  {
    if pieces != [] {
      var stripped := StripMark(pieces);
      if pieces[0] == "" {
        StripMarkFacts(pieces[1..]);
        assert stripped[1..] == StripMark(pieces[1..]);
        assert "" + Flatten(pieces[1..]) == Flatten(pieces[1..]);
      } else {
        assert stripped[1..] == pieces[1..];
        var text := pieces[0];
        assert DropBom(text + Flatten(pieces[1..])) == DropBom(text) + Flatten(pieces[1..]);
        if |text| > 1 && text[0] == BOM {
          assert text[1..][|text| - 2] == text[|text| - 1];
        }
      }
    }
  }

  lemma ReadAllStripped(s: Py.Held, pieces: seq<string>)
    requires !s.bomChecked
    ensures var a, b := Py.ReadAll(s, pieces), Py.ReadAll(s.(bomChecked := true), StripMark(pieces));
            a.data == b.data && a.raised == b.raised
    decreases |pieces|
  {
    if pieces != [] {
      var stripped := StripMark(pieces);
      var a := Py.Chunk(s, pieces[0]);
      var b := Py.Chunk(s.(bomChecked := true), stripped[0]);
      assert a == b.(state := a.state) && a.state == b.state.(bomChecked := a.state.bomChecked);
      if pieces[0] == "" {
        assert stripped[1..] == StripMark(pieces[1..]);
        ReadAllStripped(a.state, pieces[1..]);
      } else {
        assert stripped[1..] == pieces[1..];
      }
    }
  }

  // ---- splitting piece by piece ----

  /** Every frame of a text, and its rest, is within the reader's size limit. */
  predicate FramesFit(text: string)
  {
    var split := Py.SplitFrames(text);
    (forall frame | frame in split.frames :: |frame| <= Py.FRAME_LIMIT) && |split.rest| <= Py.FRAME_LIMIT
  }

  lemma DrainFacts(text: string)
    ensures var d, split := Py.Drain(text), Py.SplitFrames(text);
            && d.raised == !FramesFit(text)
            && (!d.raised ==> d.frames == split.frames && d.rest == split.rest)
    decreases |text|
  {
    var k := Py.FindBlankLine(text);
    if k < |text| {
      DrainFacts(text[k + 2..]);
      var frames := Py.SplitFrames(text[k + 2..]).frames;
      assert forall frame :: frame in [text[..k]] + frames <==> frame == text[..k] || frame in frames;
    }
  }

  lemma RestHasNoFrame(text: string)
    ensures var rest := Py.SplitFrames(text).rest; Py.FindBlankLine(rest) == |rest|
    decreases |text|
  {
  }

  lemma FindInPrefix(a: string, b: string)
    requires Py.FindBlankLine(a) < |a|
    ensures Py.FindBlankLine(a + b) == Py.FindBlankLine(a)
  {
    assert (a + b)[0] == a[0] && (a + b)[1] == a[1];
    if !(a[0] == '\n' && a[1] == '\n') {
      assert (a + b)[1..] == a[1..] + b;
      FindInPrefix(a[1..], b);
    }
  }

  /** Splitting a part first and going on with its rest is splitting the whole. */
  lemma {:induction false} SplitConcat(a: string, b: string)
    ensures var left := Py.SplitFrames(a); var right := Py.SplitFrames(left.rest + b);
            Py.SplitFrames(a + b) == Py.Split(left.frames + right.frames, right.rest)
    decreases |a|
  {
    var k := Py.FindBlankLine(a);
    if k < |a| {
      var frame, after := a[..k], a[k + 2..];
      FirstFrame(a, b, frame, after);
      SplitConcat(after, b);
      var left := Py.SplitFrames(after);
      var right := Py.SplitFrames(left.rest + b);
      ConcatAssociates([frame], left.frames, right.frames);
    }
  }

  lemma FirstFrame(a: string, b: string, frame: string, after: string)
    requires var k := Py.FindBlankLine(a); k < |a| && frame == a[..k] && after == a[k + 2..]
    ensures var more := Py.SplitFrames(after); Py.SplitFrames(a) == Py.Split([frame] + more.frames, more.rest)
    ensures var more := Py.SplitFrames(after + b); Py.SplitFrames(a + b) == Py.Split([frame] + more.frames, more.rest)
  {
    var k := Py.FindBlankLine(a);
    FindInPrefix(a, b);
    assert (a + b)[..k] == frame;
    assert (a + b)[k + 2..] == after + b;
  }

  /** The reader's data is the data of all the text it buffered. */
  lemma {:induction false} ReadAllIsSplit(s: Py.Held, pieces: seq<string>)
    requires s.bomChecked && Py.FindBlankLine(s.buffer) == |s.buffer| <= Py.FRAME_LIMIT
    requires !Py.ReadAll(s, pieces).raised
    ensures var text := s.buffer + Buffered(pieces, s.pendingCr);
            Py.ReadAll(s, pieces).data == Py.Yields(Py.SplitFrames(text).frames) && FramesFit(text)
    decreases |pieces|
  {
    hide Py.FindBlankLine;
    hide Py.Drain;
    hide Py.Normal;
    hide Py.Yields;
    if pieces == [] {
      NothingBuffered(s);
    } else {
      var now := s.buffer + Py.Normal(s.pendingCr, pieces[0]);
      var later := Buffered(pieces[1..], Py.EndsCr(pieces[0]));
      assert s.buffer + Buffered(pieces, s.pendingCr) == now + later;
      DrainFacts(now);
      RestHasNoFrame(now);
      var first := Py.Chunk(s, pieces[0]);
      ReadAllIsSplit(first.state, pieces[1..]);
      var split := Py.SplitFrames(now);
      assert first.state.buffer == split.rest;
      FitsConcat(now, later);
      Py.YieldsConcat(split.frames, Py.SplitFrames(split.rest + later).frames);
    }
  }

  lemma NothingBuffered(s: Py.Held)
    requires Py.FindBlankLine(s.buffer) == |s.buffer| <= Py.FRAME_LIMIT
    ensures s.buffer + Buffered([], s.pendingCr) == s.buffer
    ensures Py.Yields(Py.SplitFrames(s.buffer).frames) == [] && FramesFit(s.buffer)
  {
  }

  lemma FitsConcat(a: string, b: string)
    ensures var left := Py.SplitFrames(a); var right := Py.SplitFrames(left.rest + b);
            Py.SplitFrames(a + b) == Py.Split(left.frames + right.frames, right.rest)
    ensures FramesFit(a) && FramesFit(Py.SplitFrames(a).rest + b) ==> FramesFit(a + b)
  {
    SplitConcat(a, b);
  }

  // ---- frames and lines ----

  /** A text without CR cut at one of its LFs. */
  lemma {:induction false} CutAtLf(a: string, b: string)
    requires '\r' !in a
    ensures CutLines(a + "\n" + b) == Cut(SplitOn(a, '\n') + CutLines(b).lines, CutLines(b).tail)
  {
    var text := a + "\n" + b;
    if a == "" {
      assert text[0] == '\n' && text[1..] == b;
    } else {
      assert text[0] == a[0] && text[1..] == a[1..] + "\n" + b;
      CutAtLf(a[1..], b);
      var rest, after := SplitOn(a[1..], '\n'), CutLines(b).lines;
      if a[0] == '\n' {
        assert AfterBreak(text[0], text[1..]) == text[1..];
        ConcatAssociates([""], rest, after);
      } else {
        GrownConcat(a[0], rest, after);
      }
    }
  }

  lemma {:induction false} CutIsSplit(text: string)
    requires '\r' !in text
    ensures CutLines(text).lines + [CutLines(text).tail] == SplitOn(text, '\n')
  {
    if text != "" {
      CutIsSplit(text[1..]);
      var rest := CutLines(text[1..]);
      if text[0] != '\n' && rest.lines != [] {
        assert (rest.lines + [rest.tail])[0] == rest.lines[0];
        assert (rest.lines + [rest.tail])[1..] == rest.lines[1..] + [rest.tail];
      }
    }
  }

  /** What precedes the first blank line has none itself and does not end with a line break. */
  lemma FrameShape(text: string)
    requires Py.FindBlankLine(text) < |text|
    ensures var k := Py.FindBlankLine(text);
            Py.FindBlankLine(text[..k]) == k && (k > 0 ==> text[k - 1] != '\n')
  {
    var k := Py.FindBlankLine(text);
    if k > 0 {
      FrameShape(text[1..]);
      assert text[..k][1..] == text[1..][..k - 1];
    }
  }

  /** Only the first line is empty, and a last one that is not ended. */
  predicate IsInner(frame: string, lines: seq<string>)
  {
    && lines != []
    && (frame == "" || frame[|frame| - 1] != '\n' ==> "" !in lines[1..])
    && (|lines| > 1 ==> "" !in lines[1..|lines| - 1])
    && (lines[0] == "" <==> frame == "" || frame[0] == '\n')
    && (|lines| == 1 ==> frame == lines[0])
    && Total(lines) <= |frame|
  }

  lemma InnerBreak(frame: string, rest: seq<string>)
    requires frame != "" && frame[0] == '\n' && (|frame| > 1 ==> frame[1] != '\n')
    requires IsInner(frame[1..], rest) && (|frame| == 1 ==> rest == [""])
    ensures IsInner(frame, [""] + rest)
  {
    var lines := [""] + rest;
    assert rest == [rest[0]] + rest[1..];
    assert lines[1..] == rest;
    assert |rest| > 1 ==> lines[1..|lines| - 1] == [rest[0]] + rest[1..|rest| - 1];
  }

  lemma InnerChar(frame: string, rest: seq<string>)
    requires frame != "" && frame[0] != '\n' && IsInner(frame[1..], rest)
    ensures IsInner(frame, [[frame[0]] + rest[0]] + rest[1..])
  {
    var lines := [[frame[0]] + rest[0]] + rest[1..];
    assert lines[1..] == rest[1..];
    assert |rest| > 1 ==> lines[1..|lines| - 1] == rest[1..|rest| - 1];
    assert |rest| == 1 ==> lines == [[frame[0]] + rest[0]] && [frame[0]] + frame[1..] == frame;
  }

  /** Inside a text without blank line only the first line can be empty, and a last one that is not ended. */
  lemma {:induction false} InnerLines(frame: string)
    requires Py.FindBlankLine(frame) == |frame|
    ensures IsInner(frame, SplitOn(frame, '\n'))
  {
    if frame == "" {
      assert [""][1..] == [];
    } else {
      hide IsInner;
      InnerLines(frame[1..]);
      if frame[0] == '\n' {
        InnerBreak(frame, SplitOn(frame[1..], '\n'));
      } else {
        InnerChar(frame, SplitOn(frame[1..], '\n'));
      }
    }
  }

  /** A run of lines none of which is empty stays in one block. */
  lemma {:induction false} RawBlock(lines: seq<string>, rest: Cut, data: seq<string>, used: nat)
    requires "" !in lines
    ensures RawData(lines + [""] + rest.lines, data) ==
            (if data + DataValues(lines) == [] then [] else [Join(data + DataValues(lines), '\n')]) +
              RawData(rest.lines, [])
    ensures used + Total(lines) <= MAX_FRAME_CHARS && Fit(rest.lines, rest.tail, 0) ==>
              Fit(lines + [""] + rest.lines, rest.tail, used)
    decreases |lines|
  {
    hide RawData;
    hide Fit;
    var all := lines + [""] + rest.lines;
    if lines == [] {
      assert all == [""] + rest.lines;
      assert DataValues(lines) == [] && data + [] == data;
      RawCons("", rest.lines, rest.tail, data, used);
    } else {
      var more := lines[1..] + [""] + rest.lines;
      assert all == [lines[0]] + more;
      assert lines[0] in lines;
      RawCons(lines[0], more, rest.tail, data, used);
      RawBlock(lines[1..], rest, data + DataValues([lines[0]]), used + |lines[0]|);
      FieldsConcat(lines[0], lines[1..], data, None, None);
      assert [lines[0]] + lines[1..] == lines;
    }
  }

  lemma RawCons(line: string, rest: seq<string>, tail: string, data: seq<string>, used: nat)
    ensures line == "" ==>
              && RawData([line] + rest, data) == (if data == [] then [] else [Join(data, '\n')]) + RawData(rest, [])
              && Fit([line] + rest, tail, used) == Fit(rest, tail, 0)
    ensures line != "" ==>
              && RawData([line] + rest, data) == RawData(rest, data + DataValues([line]))
              && Fit([line] + rest, tail, used) == (used + |line| <= MAX_FRAME_CHARS && Fit(rest, tail, used + |line|))
  {
    assert ([line] + rest)[0] == line && ([line] + rest)[1..] == rest;
  }

  /** Lines without an empty one never complete a block. */
  lemma {:induction false} NoBlankNoData(lines: seq<string>, tail: string, data: seq<string>, used: nat)
    requires "" !in lines
    ensures RawData(lines, data) == []
    ensures used + Total(lines) + |tail| <= MAX_FRAME_CHARS ==> Fit(lines, tail, used)
    decreases |lines|
  {
    if lines != [] {
      assert lines[0] in lines;
      NoBlankNoData(lines[1..], tail, data + DataValues([lines[0]]), used + |lines[0]|);
    }
  }

  /** An empty line in front changes nothing while no value is held. */
  lemma LeadingBlank(lines: seq<string>, tail: string)
    ensures RawData([""] + lines, []) == RawData(lines, [])
    ensures Fit([""] + lines, tail, 0) == Fit(lines, tail, 0)
    ensures DataValues([""] + lines) == DataValues(lines)
    ensures Total([""] + lines) == Total(lines)
  {
    assert ([""] + lines)[0] == "" && ([""] + lines)[1..] == lines;
    assert FieldValue("", "data") == None;
  }

  /** One frame is one block: its data is yielded, and nothing of it carries over. */
  lemma FrameIsBlock(frame: string, rest: Cut)
    requires Py.FindBlankLine(frame) == |frame| && (frame != "" ==> frame[|frame| - 1] != '\n')
    ensures var lines := SplitOn(frame, '\n') + [""] + rest.lines;
            && RawData(lines, []) == Py.Yields([frame]) + RawData(rest.lines, [])
            && (|frame| <= MAX_FRAME_CHARS && Fit(rest.lines, rest.tail, 0) ==> Fit(lines, rest.tail, 0))
  {
    InnerLines(frame);
    OneFrameYields(frame);
    BlockOf(SplitOn(frame, '\n'), rest);
  }

  lemma BlockOf(split: seq<string>, rest: Cut)
    requires split != [] && "" !in split[1..]
    ensures var lines, values := split + [""] + rest.lines, DataValues(split);
            && RawData(lines, []) == (if values == [] then [] else [Join(values, '\n')]) + RawData(rest.lines, [])
            && (Total(split) <= MAX_FRAME_CHARS && Fit(rest.lines, rest.tail, 0) ==> Fit(lines, rest.tail, 0))
  {
    hide RawData;
    hide Fit;
    hide Total;
    hide DataValues;
    var lines := split + [""] + rest.lines;
    assert split == [split[0]] + split[1..];
    var body := if split[0] == "" then split[1..] else split;
    RawBlock(body, rest, [], 0);
    assert [] + DataValues(body) == DataValues(body);
    if split[0] == "" {
      assert lines == [""] + (body + [""] + rest.lines);
      LeadingBlank(body + [""] + rest.lines, rest.tail);
      LeadingBlank(body, "");
    }
  }

  lemma OneFrameYields(frame: string)
    ensures Py.Yields([frame]) ==
            var values := DataValues(SplitOn(frame, '\n')); if values == [] then [] else [Join(values, '\n')]
  {
    assert [frame][1..] == [];
  }

  /** Splitting at blank lines yields the data of the blocks, within a limit at least as strict. */
  lemma {:induction false} FramesAreBlocks(text: string)
    requires '\r' !in text
    ensures Py.Yields(Py.SplitFrames(text).frames) == RawData(CutLines(text).lines, [])
    ensures FramesFit(text) ==> Fit(CutLines(text).lines, CutLines(text).tail, 0)
    decreases |text|
  {
    var k := Py.FindBlankLine(text);
    if k < |text| {
      var frame, after := text[..k], text[k + 2..];
      FramesAreBlocks(after);
      FrameShape(text);
      CutAtBlankLine(text, frame, after);
      FrameIsBlock(frame, CutLines(after));
      UnfoldSplit(text, frame, after);
    } else {
      NoFrameNoData(text);
    }
  }

  lemma UnfoldSplit(text: string, frame: string, after: string)
    requires var k := Py.FindBlankLine(text); k < |text| && frame == text[..k] && after == text[k + 2..]
    ensures Py.Yields(Py.SplitFrames(text).frames) == Py.Yields([frame]) + Py.Yields(Py.SplitFrames(after).frames)
    ensures FramesFit(text) ==> |frame| <= Py.FRAME_LIMIT && FramesFit(after)
  {
    var frames := Py.SplitFrames(after).frames;
    Py.YieldsConcat([frame], frames);
    assert Py.SplitFrames(text).frames == [frame] + frames;
    assert frame in [frame] + frames;
    assert forall f | f in frames :: f in [frame] + frames;
  }

  lemma CutAtBlankLine(text: string, frame: string, after: string)
    requires '\r' !in text
    requires var k := Py.FindBlankLine(text); k < |text| && frame == text[..k] && after == text[k + 2..]
    ensures CutLines(text) == Cut(SplitOn(frame, '\n') + [""] + CutLines(after).lines, CutLines(after).tail)
  {
    hide SplitOn;
    var rest := "\n" + after;
    AroundBlankLine(text, frame, after);
    CutAtLf(frame, rest);
    LeadingLf(after);
    ConcatAssociates(SplitOn(frame, '\n'), [""], CutLines(after).lines);
  }

  lemma AroundBlankLine(text: string, frame: string, after: string)
    requires var k := Py.FindBlankLine(text); k < |text| && frame == text[..k] && after == text[k + 2..]
    ensures text == frame + "\n" + ("\n" + after)
  {
    hide Py.FindBlankLine;
    AroundTwo(text, Py.FindBlankLine(text));
  }

  lemma LeadingLf(after: string)
    ensures CutLines("\n" + after) == Cut([""] + CutLines(after).lines, CutLines(after).tail)
  {
    var rest := "\n" + after;
    assert rest[0] == '\n' && rest[1..] == after;
    assert AfterBreak('\n', after) == after;
  }

  lemma NoFrameNoData(text: string)
    requires '\r' !in text && Py.FindBlankLine(text) == |text|
    ensures RawData(CutLines(text).lines, []) == []
    ensures |text| <= MAX_FRAME_CHARS ==> Fit(CutLines(text).lines, CutLines(text).tail, 0)
  {
    hide RawData;
    hide Fit;
    hide Total;
    CutIsSplit(text);
    InnerLines(text);
    var cut, split := CutLines(text), SplitOn(text, '\n');
    TotalSnoc(cut.lines, cut.tail);
    assert cut.lines != [] ==> split[1..|split| - 1] == cut.lines[1..] && cut.lines == [cut.lines[0]] + cut.lines[1..];
    var body := if cut.lines != [] && cut.lines[0] == "" then cut.lines[1..] else cut.lines;
    NoBlankNoData(body, cut.tail, [], 0);
    LeadingBlank(body, cut.tail);
  }

  lemma TotalSnoc(lines: seq<string>, last: string)
    ensures Total(lines + [last]) == Total(lines) + |last|
  {
    if lines == [] {
      assert lines + [last] == [last] && [last][1..] == [];
    } else {
      assert (lines + [last])[0] == lines[0] && (lines + [last])[1..] == lines[1..] + [last];
      TotalSnoc(lines[1..], last);
    }
  }

  /** Normalising does not change the lines. */
  lemma {:induction false} NormalLines(pending: bool, text: string)
    ensures CutLines(Py.Normal(pending, text)) == CutLines(if pending then AfterBreak('\r', text) else text)
    ensures '\r' !in Py.Normal(pending, text)
    decreases |text|
  {
    if text != "" {
      if pending && text[0] == '\n' {
        NormalLines(false, text[1..]);
      } else {
        NormalLines(text[0] == '\r', text[1..]);
        var normal := Py.Normal(pending, text);
        var rest := Py.Normal(text[0] == '\r', text[1..]);
        assert normal[1..] == rest;
        assert normal == [normal[0]] + rest;
      }
    }
  }

  // ---- the two readers ----

  /**
   * For every text and every way of cutting it into pieces that loses no CRLF
   * pair to an empty piece: when the Python reader does not raise its
   * size-limit error, the TypeScript decoder does not throw, and both deliver
   * the same data values.
   */
  lemma AcceptedAgree(pieces: seq<string>)
    requires Gaps(pieces, false, false) == 0
    requires !Py.ReadAll(Py.START, pieces).raised
    ensures !PushAll(INITIAL, pieces).overflow
    ensures Py.ReadAll(Py.START, pieces).data == DataOf(PushAll(INITIAL, pieces).frames)
  {
    var stripped, text := StripMark(pieces), DropBom(Flatten(pieces));
    ReadAllStripped(Py.START, pieces);
    StripMarkFacts(pieces);
    ReadAllIsSplit(Py.START.(bomChecked := true), stripped);
    GapsAreExtraBreaks(stripped, false, false);
    var normal := Py.Normal(false, text);
    assert "" + normal == normal;
    NormalLines(false, text);
    FramesAreBlocks(normal);
    PushAllIsFeed(INITIAL, pieces);
    FeedFromStart(Flatten(pieces));
    DataOfFold(CutLines(text).lines, [], None, None);
  }

  /**
   * Why the loop relies on its decoder: for any two data lines, an empty piece
   * inside the CRLF between them would make two events of one.
   */
  lemma EmptyPieceSplitsEvent(a: string, b: string)
    requires Plain(a) && Plain(b) && FieldValue(a, "data").Some? && FieldValue(b, "data").Some?
    ensures var pieces := [a + "\r", "", "\n" + b + "\n\n"];
            var va, vb := FieldValue(a, "data").value, FieldValue(b, "data").value;
            && Gaps(pieces, false, false) == 1
            && Py.Yields(Py.SplitFrames(Buffered(pieces, false)).frames) == [va, vb]
            && RawData(CutLines(Flatten(pieces)).lines, []) == [va + "\n" + vb]
  {
    var pieces := [a + "\r", "", "\n" + b + "\n\n"];
    ThreePieces(pieces[0], pieces[2]);
    assert pieces == [pieces[0], "", pieces[2]];
    Py.NormalConcat(false, pieces[0], pieces[2]);
    NormalEnds(a, b);
    FramesAreBlocks((a + "\n") + ("\n" + (b + "\n\n")));
    NormalLines(false, Flatten(pieces));
    TwoBlocks(a, b);
    OneBlock(a, b);
  }

  lemma ThreePieces(x: string, y: string)
    requires y != "" && Py.EndsCr(x) && Py.StartsLf(y)
    ensures var pieces := [x, "", y];
            && Flatten(pieces) == x + y
            && Buffered(pieces, false) == Py.Normal(false, x) + Py.Normal(false, y)
            && Gaps(pieces, false, false) == 1
  {
    var pieces, last := [x, "", y], [y];
    assert pieces[1..] == ["", y] && ["", y][1..] == last && last[1..] == [];
    assert Flatten(last) == y + Flatten<char>([]) == y;
    assert Flatten(["", y]) == "" + y == y;
    assert Buffered(last, false) == Py.Normal(false, y) + Buffered([], false) == Py.Normal(false, y);
    assert Gaps(last, false, true) == 1 + Gaps([], Py.EndsCr(y), false) == 1;
    assert Gaps(["", y], true, false) == 1;
    assert Buffered(["", y], true) == "" + Buffered(last, false) == Py.Normal(false, y);
  }

  /** No line breaks. */
  predicate Plain(text: string)
  {
    '\r' !in text && '\n' !in text
  }

  lemma PlainIsNormal(pending: bool, text: string)
    requires Plain(text)
    ensures Py.Normal(pending, text) == text
    decreases |text|
  {
    if text != "" {
      PlainIsNormal(false, text[1..]);
      assert text == [text[0]] + text[1..];
    }
  }

  lemma NormalEnds(a: string, b: string)
    requires Plain(a) && Plain(b)
    ensures Py.Normal(false, a + "\r") == a + "\n"
    ensures Py.Normal(false, "\n" + b + "\n\n") == "\n" + (b + "\n\n")
    ensures Py.Normal(true, "\n" + b + "\n\n") == b + "\n\n"
  {
    PlainIsNormal(false, a);
    PlainIsNormal(false, b);
    Py.NormalConcat(false, a, "\r");
    Py.NormalConcat(false, b, "\n\n");
    var text := "\n" + b + "\n\n";
    assert text[0] == '\n' && text[1..] == b + "\n\n";
    assert Py.Normal(false, "\n\n") == "\n\n";
  }

  lemma PlainLine(a: string, rest: string)
    requires Plain(a)
    ensures CutLines((a + "\n") + rest) == Cut([a] + CutLines(rest).lines, CutLines(rest).tail)
  {
    CutAtLf(a, rest);
    SplitOnAbsent(a, '\n');
  }

  lemma OneBlock(a: string, b: string)
    requires Plain(a) && Plain(b) && FieldValue(a, "data").Some? && FieldValue(b, "data").Some?
    ensures RawData(CutLines((a + "\n") + (b + "\n\n")).lines, [])
            == [FieldValue(a, "data").value + "\n" + FieldValue(b, "data").value]
  {
    var va, vb := FieldValue(a, "data").value, FieldValue(b, "data").value;
    assert b + "\n\n" == (b + "\n") + (("" + "\n") + "");
    PlainLine("", "");
    PlainLine(b, ("" + "\n") + "");
    PlainLine(a, b + "\n\n");
    assert CutLines("") == Cut([], "") && [""] + [] == [""];
    assert CutLines((a + "\n") + (b + "\n\n")).lines == [a] + ([b] + [""]);
    RawBlock([a, b], Cut([], ""), [], 0);
    assert [a] + ([b] + [""]) == [a, b] + [""] + [];
    assert [a, b][1..] == [b] && [b][1..] == [];
    assert DataValues([b]) == [vb] + DataValues([]) == [vb];
    assert DataValues([a, b]) == [va] + [vb] == [va, vb];
    assert [] + [va, vb] == [va, vb] && [va, vb][1..] == [vb];
    assert RawData([], []) == [];
  }

  lemma TwoBlocks(a: string, b: string)
    requires Plain(a) && Plain(b) && FieldValue(a, "data").Some? && FieldValue(b, "data").Some?
    ensures RawData(CutLines((a + "\n") + ("\n" + (b + "\n\n"))).lines, [])
            == [FieldValue(a, "data").value, FieldValue(b, "data").value]
  {
    var va, vb := FieldValue(a, "data").value, FieldValue(b, "data").value;
    assert b + "\n\n" == (b + "\n") + (("" + "\n") + "");
    PlainLine("", "");
    PlainLine(b, ("" + "\n") + "");
    assert "\n" + (b + "\n\n") == ("" + "\n") + (b + "\n\n");
    PlainLine("", b + "\n\n");
    PlainLine(a, "\n" + (b + "\n\n"));
    var second := Cut([b] + [""], "");
    assert CutLines("") == Cut([], "") && [""] + [] == [""];
    assert CutLines(b + "\n\n") == second;
    RawBlock([b], Cut([], ""), [], 0);
    RawBlock([a], second, [], 0);
    assert [b] + [""] + [] == second.lines && [a] + [""] + second.lines == [a] + ([""] + second.lines);
    assert [a][1..] == [] && [b][1..] == [];
    assert DataValues([a]) == [va] + DataValues([]) == [va] && DataValues([b]) == [vb] + DataValues([]) == [vb];
    assert [] + [va] == [va] && [] + [vb] == [vb];
    assert RawData([], []) == [];
  }
}
