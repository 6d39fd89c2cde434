/**
 * The Python reader over all cuts of a stream: for which texts its size limit
 * never fires, what its incremental decoder hands it, and from both, for every
 * cut of the bytes, agreement with the TypeScript decoder.
 */
module SseCuts {
  import opened Common
  import opened Text
  import opened SseParser
  import opened SseBatch
  import opened SseAgreement
  import Py = SsePython

  /** A way of cutting a text into pieces that are not empty. */
  ghost predicate IsCut(pieces: seq<string>, text: string)
  {
    "" !in pieces && Flatten(pieces) == text
  }

  /** The text as the reader splits it: without its mark, every line break an LF. */
  function Normalised(text: string): string
  {
    Py.Normal(false, DropBom(text))
  }

  /** Every frame is shorter than the limit, and the rest within it. */
  predicate HasRoom(text: string)
  {
    var split := Py.SplitFrames(text);
    (forall frame | frame in split.frames :: |frame| < Py.FRAME_LIMIT) && |split.rest| <= Py.FRAME_LIMIT
  }

  /** The sizes for which the reader accepts every cut, and those for which it accepts some. */
  predicate FitsEveryCut(text: string)
  {
    HasRoom(Normalised(text))
  }

  predicate FitsSomeCut(text: string)
  {
    FramesFit(Normalised(text))
  }

  // ---- texts that no cut makes too large ----

  /** What precedes the first blank line is at most one LF longer than its frame. */
  lemma {:induction false} BlankLineBehind(a: string, b: string)
    requires Py.FindBlankLine(a) == |a|
    ensures Py.FindBlankLine(a + b) < |a + b| ==> |a| <= Py.FindBlankLine(a + b) + 1
  {
    var text := a + b;
    if |a| >= 2 {
      assert text[0] == a[0] && text[1] == a[1] && text[1..] == a[1..] + b;
      BlankLineBehind(a[1..], b);
    }
  }

  /** What is buffered in front of a text with room has room itself, and leaves room for the rest. */
  lemma RoomAhead(now: string, later: string)
    requires HasRoom(now + later)
    ensures FramesFit(now) && HasRoom(Py.SplitFrames(now).rest + later)
  {
    hide Py.SplitFrames;
    SplitConcat(now, later);
    var left := Py.SplitFrames(now);
    var right := Py.SplitFrames(left.rest + later);
    assert forall frame | frame in left.frames :: frame in left.frames + right.frames;
    assert forall frame | frame in right.frames :: frame in left.frames + right.frames;
    RestHasNoFrame(now);
    RestIsShort(left.rest, later);
  }

  lemma RestIsShort(rest: string, later: string)
    requires Py.FindBlankLine(rest) == |rest| && HasRoom(rest + later)
    ensures |rest| <= Py.FRAME_LIMIT
  {
    var text := rest + later;
    var k := Py.FindBlankLine(text);
    BlankLineBehind(rest, later);
    if k < |text| {
      assert text[..k] in Py.SplitFrames(text).frames;
    }
  }

  lemma {:induction false} RoomNeverRaises(s: Py.Held, pieces: seq<string>)
    requires s.bomChecked && HasRoom(s.buffer + Buffered(pieces, s.pendingCr))
    ensures !Py.ReadAll(s, pieces).raised
    decreases |pieces|
  {
    hide Py.Drain; hide Py.Normal; hide Py.Yields; hide HasRoom; hide FramesFit; hide Py.SplitFrames;
    if pieces != [] {
      var now := s.buffer + Py.Normal(s.pendingCr, pieces[0]);
      var later := Buffered(pieces[1..], Py.EndsCr(pieces[0]));
      ConcatAssociates(s.buffer, Py.Normal(s.pendingCr, pieces[0]), later);
      RoomAhead(now, later);
      DrainFacts(now);
      RoomNeverRaises(Py.Chunk(s, pieces[0]).state, pieces[1..]);
    }
  }

  /** No cut without a gap raises the size error on a text that fits every cut. */
  lemma FittingNeverRaises(pieces: seq<string>)
    requires Gaps(pieces, false, false) == 0 && FitsEveryCut(Flatten(pieces))
    ensures !Py.ReadAll(Py.START, pieces).raised
  {
    hide HasRoom; hide Py.Normal; hide Py.ReadAll;
    var stripped := StripMark(pieces);
    ReadAllStripped(Py.START, pieces);
    StripMarkFacts(pieces);
    GapsAreExtraBreaks(stripped, false, false);
    assert "" + Buffered(stripped, false) == Buffered(stripped, false);
    RoomNeverRaises(Py.START.(bomChecked := true), stripped);
  }

  lemma {:induction false} NoEmptyPieceNoGap(pieces: seq<string>, held: bool)
    requires "" !in pieces
    ensures Gaps(pieces, held, false) == 0
    decreases |pieces|
  {
    if pieces != [] {
      NoEmptyPieceNoGap(pieces[1..], Py.EndsCr(pieces[0]));
    }
  }

  // ---- texts that some cut makes too large ----

  /** Cutting behind the first LF of a blank line leaves a whole frame and that LF in the buffer. */
  lemma FrameAndLf(text: string)
    requires Py.FindBlankLine(text) < |text|
    ensures var k := Py.FindBlankLine(text); k >= Py.FRAME_LIMIT ==> !FramesFit(text[..k + 1])
  {
    hide Py.FindBlankLine; hide FramesFit;
    var k := Py.FindBlankLine(text);
    NoneBefore(text, k + 1);
    if k >= Py.FRAME_LIMIT {
      OpenTextTooLong(text[..k + 1]);
    }
  }

  lemma OpenTextTooLong(text: string)
    requires Py.FindBlankLine(text) == |text| > Py.FRAME_LIMIT
    ensures !FramesFit(text)
  {
    hide Py.FindBlankLine;
    assert Py.SplitFrames(text) == Py.Split([], text);
  }

  lemma {:induction false} NoneBefore(text: string, m: nat)
    requires Py.FindBlankLine(text) < |text| && m <= Py.FindBlankLine(text) + 1
    ensures Py.FindBlankLine(text[..m]) == m
  {
    if m >= 2 {
      NoneBefore(text[1..], m - 1);
      assert text[..m][1..] == text[1..][..m - 1];
    }
  }

  ghost predicate HasLongFrame(text: string)
  {
    exists frame :: frame in Py.SplitFrames(text).frames && |frame| >= Py.FRAME_LIMIT
  }

  lemma LongFrameAhead(text: string)
    requires HasLongFrame(text)
    ensures var k := Py.FindBlankLine(text); k < |text| && (k >= Py.FRAME_LIMIT || HasLongFrame(text[k + 2..]))
  {
    var frame :| frame in Py.SplitFrames(text).frames && |frame| >= Py.FRAME_LIMIT;
    var k := Py.FindBlankLine(text);
    assert frame == text[..k] || frame in Py.SplitFrames(text[k + 2..]).frames;
  }

  /** A frame that is not shorter than the limit overflows the buffer when the text is cut inside its blank line. */
  lemma {:induction false} LongFrameOverflows(text: string) returns (m: nat)
    requires HasLongFrame(text)
    ensures 0 < m < |text| && !FramesFit(text[..m])
    decreases |text|
  {
    hide HasLongFrame; hide FramesFit; hide Py.FindBlankLine;
    LongFrameAhead(text);
    var k := Py.FindBlankLine(text);
    if k >= Py.FRAME_LIMIT {
      FrameAndLf(text);
      m := k + 1;
    } else {
      var after := text[k + 2..];
      var more := LongFrameOverflows(after);
      m := k + 2 + more;
      assert text[..m] == text[..k + 2] + after[..more];
      FrameKept(text, after[..more]);
    }
  }

  lemma FrameKept(text: string, later: string)
    requires var k := Py.FindBlankLine(text); k < |text|
    ensures FramesFit(text[..Py.FindBlankLine(text) + 2] + later) ==> FramesFit(later)
  {
    var k := Py.FindBlankLine(text);
    var head := text[..k + 2];
    FoundInHead(text, k);
    FindInPrefix(head, later);
    var whole := head + later;
    assert whole[k + 2..] == later && whole[..k] == text[..k];
    var more := Py.SplitFrames(later);
    assert forall frame | frame in more.frames :: frame in [text[..k]] + more.frames;
  }

  lemma {:induction false} FoundInHead(text: string, k: nat)
    requires k == Py.FindBlankLine(text) < |text|
    ensures Py.FindBlankLine(text[..k + 2]) == k
  {
    if k > 0 {
      FoundInHead(text[1..], k - 1);
      assert text[..k + 2][1..] == text[1..][..k + 1];
    }
  }

  /** Every beginning of the normalised text is the normal form of a beginning of the text. */
  lemma {:induction false} NormalPrefix(pending: bool, text: string, m: nat) returns (j: nat)
    requires m <= |Py.Normal(pending, text)|
    ensures j <= |text| && Py.Normal(pending, text[..j]) == Py.Normal(pending, text)[..m]
    decreases |text|
  {
    if m == 0 {
      j := 0;
      assert text[..0] == "";
    } else {
      var swallowed := pending && text[0] == '\n';
      var next := if swallowed then false else text[0] == '\r';
      var rest := NormalPrefix(next, text[1..], if swallowed then m else m - 1);
      j := rest + 1;
      assert text[..j][1..] == text[1..][..rest];
    }
  }

  lemma OnePieceRead(text: string)
    requires text != ""
    ensures Py.ReadAll(Py.START, [text]).raised == !FitsSomeCut(text)
  {
    var first := Py.Chunk(Py.START, text);
    assert [text][1..] == [];
    assert "" + Normalised(text) == Normalised(text);
    DrainFacts(Normalised(text));
  }

  /** The first piece alone can be too large. */
  lemma FirstPieceRaises(a: string, b: string)
    requires a != "" && !FitsSomeCut(a)
    ensures Py.ReadAll(Py.START, [a, b]).raised
  {
    OnePieceRead(a);
    assert [a, b][1..] == [b] && [a][1..] == [];
  }

  /** A text that does not fit every cut has one that the reader refuses. */
  lemma RefusedCut(text: string) returns (pieces: seq<string>)
    requires !FitsEveryCut(text)
    ensures IsCut(pieces, text) && Py.ReadAll(Py.START, pieces).raised
  {
    hide Py.ReadAll; hide Py.Normal; hide Py.SplitFrames;
    var normal := Normalised(text);
    NotEmptyText(text);
    if FitsSomeCut(text) {
      var split := Py.SplitFrames(normal);
      assert HasLongFrame(normal);
      var m := LongFrameOverflows(normal);
      var j := NormalPrefix(false, DropBom(text), m);
      var i := |text| - |DropBom(text)| + j;
      CutInside(text, i, j, m);
      FirstPieceRaises(text[..i], text[i..]);
      pieces := [text[..i], text[i..]];
      TwoPieces(text, i);
    } else {
      OnePieceRead(text);
      pieces := [text];
      assert Flatten([text]) == text + Flatten<char>([]) == text;
    }
  }

  lemma NotEmptyText(text: string)
    ensures text == "" ==> FitsEveryCut(text)
  {
  }

  lemma TwoPieces(text: string, i: nat)
    requires 0 < i < |text|
    ensures IsCut([text[..i], text[i..]], text)
  {
    var a, b := text[..i], text[i..];
    assert [a, b][1..] == [b] && [b][1..] == [];
    assert Flatten([b]) == b + Flatten<char>([]) == b;
    assert Flatten([a, b]) == a + b == text;
  }

  lemma CutInside(text: string, i: nat, j: nat, m: nat)
    requires 0 < m < |Normalised(text)| && j <= |DropBom(text)| && i == |text| - |DropBom(text)| + j
    requires Py.Normal(false, DropBom(text)[..j]) == Normalised(text)[..m]
    ensures 0 < i < |text| && Normalised(text[..i]) == Normalised(text)[..m]
  {
    var body := DropBom(text);
    assert body[..0] == "" && body[..|body|] == body;
    assert DropBom(text[..i]) == body[..j] by {
      if text[0] == BOM {
        assert text[..i][1..] == body[..j];
      } else {
        assert text[..i] == body[..j];
      }
    }
  }

  /** No cut of a text is refused exactly when every frame is shorter than the limit and the rest is within it. */
  lemma NoCutIsRefused(text: string)
    ensures (forall pieces | IsCut(pieces, text) :: !Py.ReadAll(Py.START, pieces).raised) <==> FitsEveryCut(text)
  {
    hide FitsEveryCut; hide Py.ReadAll;
    if FitsEveryCut(text) {
      forall pieces | IsCut(pieces, text)
        ensures !Py.ReadAll(Py.START, pieces).raised
      {
        NoEmptyPieceNoGap(pieces, false);
        FittingNeverRaises(pieces);
      }
    } else {
      var pieces := RefusedCut(text);
    }
  }

  /** Some cut of a text is accepted exactly when no frame exceeds the limit and the rest is within it. */
  lemma SomeCutIsAccepted(text: string)
    ensures (exists pieces | IsCut(pieces, text) :: !Py.ReadAll(Py.START, pieces).raised) <==> FitsSomeCut(text)
  {
    hide FitsSomeCut; hide Py.ReadAll;
    if FitsSomeCut(text) {
      var pieces := if text == "" then [] else [text];
      WholeIsAccepted(text);
      assert IsCut(pieces, text);
    }
    forall pieces | IsCut(pieces, text) && !Py.ReadAll(Py.START, pieces).raised
      ensures FitsSomeCut(text)
    {
      AcceptedFits(pieces);
    }
  }

  lemma WholeIsAccepted(text: string)
    requires FitsSomeCut(text)
    ensures var pieces := if text == "" then [] else [text];
      IsCut(pieces, text) && !Py.ReadAll(Py.START, pieces).raised
  {
    if text != "" {
      OnePieceRead(text);
      assert Flatten([text]) == text + Flatten<char>([]) == text;
    }
  }

  lemma AcceptedFits(pieces: seq<string>)
    requires "" !in pieces && !Py.ReadAll(Py.START, pieces).raised
    ensures FitsSomeCut(Flatten(pieces))
  {
    hide Py.ReadAll; hide Py.Normal; hide FramesFit;
    var stripped := StripMark(pieces);
    NoEmptyPieceNoGap(pieces, false);
    ReadAllStripped(Py.START, pieces);
    StripMarkFacts(pieces);
    GapsAreExtraBreaks(stripped, false, false);
    NothingFound();
    ReadAllIsSplit(Py.START.(bomChecked := true), stripped);
    assert "" + Buffered(stripped, false) == Buffered(stripped, false);
  }

  lemma NothingFound()
    ensures Py.FindBlankLine("") == 0
  {
  }

  /**
   * The difference is real: a frame of exactly the limit is accepted whole, and
   * refused when cut inside its blank line.
   */
  lemma BoundaryFrame(frame: string)
    requires Plain(frame) && |frame| == Py.FRAME_LIMIT && frame[0] != BOM
    ensures FitsSomeCut(frame + "\n\n") && !FitsEveryCut(frame + "\n\n")
  {
    var text := frame + "\n\n";
    PlainIsNormal(false, frame);
    Py.NormalConcat(false, frame, "\n\n");
    assert Py.Normal(false, "\n\n") == "\n\n";
    PlainBlankLine(frame);
    assert text[..|frame|] == frame && text[|frame| + 2..] == "";
    assert Py.SplitFrames("") == Py.Split([], "");
    assert Py.SplitFrames(text) == Py.Split([frame], "");
  }

  lemma {:induction false} PlainBlankLine(frame: string)
    requires Plain(frame)
    ensures Py.FindBlankLine(frame + "\n\n") == |frame|
  {
    var text := frame + "\n\n";
    if frame != "" {
      assert text[1..] == frame[1..] + "\n\n" && text[0] == frame[0];
      PlainBlankLine(frame[1..]);
    }
  }

  // ---- whole streams ----

  /** The end of the stream reads its last text like one more piece. */
  lemma {:induction false} FinishIsRead(s: Py.Held, pieces: seq<string>, tail: string)
    requires !Py.ReadAll(s, pieces + [tail]).raised
    ensures var read := Py.ReadAll(s, pieces);
      && !read.raised
      && Py.ReadAll(s, pieces + [tail]).data == read.data + Py.FinishData(read.state, tail)
    decreases |pieces|
  {
    hide Py.Drain; hide Py.Normal; hide Py.Yields; hide Py.SplitFrames;
    var all := pieces + [tail];
    if pieces == [] {
      assert all == [tail] && [tail][1..] == [];
      DrainFacts(s.buffer + Py.Normal(s.pendingCr, if s.bomChecked then tail else DropBom(tail)));
    } else {
      assert all[0] == pieces[0] && all[1..] == pieces[1..] + [tail];
      var first := Py.Chunk(s, pieces[0]);
      FinishIsRead(first.state, pieces[1..], tail);
      var read := Py.ReadAll(first.state, pieces[1..]);
      ConcatAssociates(first.data, read.data, Py.FinishData(read.state, tail));
    }
  }

  /**
   * The readers agree. For every stream whose text fits, however it was cut,
   * as long as no empty piece tears a CRLF pair apart: the Python reader does
   * not raise its size error, the TypeScript decoder does not throw, and up
   * to the end of the stream both deliver the data values of the text.
   */
  lemma ReadersAgree(pieces: seq<string>, tail: string)
    requires Gaps(pieces + [tail], false, false) == 0 && FitsEveryCut(Flatten(pieces + [tail]))
    ensures var python, typescript := Py.Stream(pieces, tail), PushAll(INITIAL, pieces + [tail]);
      && !python.raised && !typescript.overflow
      && python.data == DataOf(typescript.frames) == DataOf(SseBatch.Frames(Flatten(pieces + [tail])))
  {
    hide FitsEveryCut; hide Py.ReadAll; hide Gaps; hide PushAll;
    FittingNeverRaises(pieces + [tail]);
    FinishIsRead(Py.START, pieces, tail);
    AcceptedAgree(pieces + [tail]);
    DecoderIsBatch(pieces + [tail]);
  }

  // ---- the decoder ----

  /**
   * What an incremental UTF-8 decoder emits, byte by byte or chunk by chunk:
   * nothing only while a character is unfinished, and what it emits next
   * starts with that character or its replacement, never with an LF.
   * `waiting` says that it has just emitted nothing.
   */
  predicate IsDecoded(emitted: seq<string>, waiting: bool)
  {
    emitted == [] ||
    if emitted[0] == "" then IsDecoded(emitted[1..], true)
    else !(waiting && Py.StartsLf(emitted[0])) && IsDecoded(emitted[1..], false)
  }

  /** The decoder leaves no gap, whether or not it holds back a character after a CR. */
  lemma {:induction false} DecodedHasNoGap(pieces: seq<string>, held: bool, lost: bool, waiting: bool)
    requires IsDecoded(pieces, waiting) && (lost ==> waiting)
    ensures Gaps(pieces, held, lost) == 0
    decreases |pieces|
  {
    if pieces != [] {
      if pieces[0] == "" {
        DecodedHasNoGap(pieces[1..], false, held || lost, true);
      } else {
        DecodedHasNoGap(pieces[1..], Py.EndsCr(pieces[0]), false, false);
      }
    }
  }

  /** The pieces that the decoder returns for chunks of bytes, when each byte emits what `chunks` says. */
  function Pieces(chunks: seq<seq<string>>): seq<string>
  {
    if chunks == [] then [] else [Flatten(chunks[0])] + Pieces(chunks[1..])
  }

  lemma {:induction false} WaitingLess(emitted: seq<string>)
    requires IsDecoded(emitted, true)
    ensures IsDecoded(emitted, false)
  {
  }

  /** One chunk in front of others: it starts well, and the others go on from where it stopped. */
  lemma {:induction false} ChunkDecoded(chunk: seq<string>, rest: seq<string>, waiting: bool)
    requires chunk != [] && IsDecoded(chunk + rest, waiting)
    ensures !(waiting && Py.StartsLf(Flatten(chunk)))
    ensures IsDecoded(rest, Flatten(chunk) == "")
    decreases |chunk|
  {
    var all := chunk + rest;
    assert all[0] == chunk[0] && all[1..] == chunk[1..] + rest;
    if |chunk| == 1 {
      assert chunk[1..] + rest == rest;
      assert Flatten(chunk) == chunk[0] + Flatten<char>([]) == chunk[0];
    } else {
      ChunkDecoded(chunk[1..], rest, chunk[0] == "");
      if chunk[0] == "" {
        assert Flatten(chunk) == Flatten(chunk[1..]);
      } else {
        assert Flatten(chunk)[0] == chunk[0][0];
        if Flatten(chunk[1..]) == "" {
          WaitingLess(rest);
        }
      }
    }
  }

  lemma {:induction false} ChunksDecoded(chunks: seq<seq<string>>, waiting: bool)
    requires [] !in chunks && IsDecoded(Flatten(chunks), waiting)
    ensures IsDecoded(Pieces(chunks), waiting)
    decreases |chunks|
  {
    if chunks != [] {
      var piece := Flatten(chunks[0]);
      ChunkDecoded(chunks[0], Flatten(chunks[1..]), waiting);
      ChunksDecoded(chunks[1..], piece == "");
      assert ([piece] + Pieces(chunks[1..]))[1..] == Pieces(chunks[1..]);
    }
  }

  lemma {:induction false} PiecesText(chunks: seq<seq<string>>)
    ensures Flatten(Pieces(chunks)) == Flatten(Flatten(chunks))
    decreases |chunks|
  {
    if chunks != [] {
      PiecesText(chunks[1..]);
      FlattenConcat(chunks[0], Flatten(chunks[1..]));
      ExtraLfCons(Flatten(chunks[0]), Pieces(chunks[1..]));
    }
  }

  lemma {:induction false} FlattenConcat(a: seq<string>, b: seq<string>)
    ensures Flatten(a + b) == Flatten(a) + Flatten(b)
    decreases |a|
  {
    if a == [] {
      assert a + b == b;
    } else {
      assert (a + b)[0] == a[0] && (a + b)[1..] == a[1..] + b;
      FlattenConcat(a[1..], b);
      ConcatAssociates(a[0], Flatten(a[1..]), Flatten(b));
    }
  }

  /**
   * For every decoded stream of bytes and every cut of it into chunks that
   * are not empty, with the decoder flushed at the end: both readers deliver
   * the data values of the decoded text.
   */
  lemma ReadersAgreeOnBytes(chunks: seq<seq<string>>, tail: string)
    requires [] !in chunks && IsDecoded(Flatten(chunks + [[tail]]), false)
    requires FitsEveryCut(Flatten(Flatten(chunks + [[tail]])))
    ensures var pieces := Pieces(chunks);
      var python, typescript := Py.Stream(pieces, tail), PushAll(INITIAL, pieces + [tail]);
      && !python.raised && !typescript.overflow
      && python.data == DataOf(typescript.frames)
      && python.data == DataOf(SseBatch.Frames(Flatten(Flatten(chunks + [[tail]]))))
  {
    hide FitsEveryCut; hide Py.ReadAll; hide Py.Stream; hide Gaps; hide PushAll; hide IsDecoded; hide Flatten;
    var all := chunks + [[tail]];
    ChunksDecoded(all, false);
    PiecesSnoc(chunks, tail);
    PiecesText(all);
    DecodedHasNoGap(Pieces(all), false, false, false);
    ReadersAgree(Pieces(chunks), tail);
  }

  lemma {:induction false} PiecesSnoc(chunks: seq<seq<string>>, tail: string)
    ensures Pieces(chunks + [[tail]]) == Pieces(chunks) + [tail]
    decreases |chunks|
  {
    if chunks == [] {
      assert chunks + [[tail]] == [[tail]] && [[tail]][1..] == [];
      assert Flatten([tail]) == tail + Flatten<char>([]) == tail;
    } else {
      assert (chunks + [[tail]])[1..] == chunks[1..] + [[tail]];
      PiecesSnoc(chunks[1..], tail);
    }
  }

  /** What the bytes of a character emit: nothing, until its last byte emits it. */
  function Emission(c: char, left: nat): seq<string>
  {
    if left <= 1 then [[c]] else [""] + Emission(c, left - 1)
  }

  function Emissions(text: string): seq<string>
  {
    if text == "" then [] else Emission(text[0], Utf8Width(text[0])) + Emissions(text[1..])
  }

  lemma {:induction false} EmissionDecoded(c: char, left: nat, rest: seq<string>, waiting: bool)
    requires IsDecoded(rest, false) && (left > 1 || waiting ==> c != '\n')
    ensures IsDecoded(Emission(c, left) + rest, waiting)
    ensures Flatten(Emission(c, left) + rest) == [c] + Flatten(rest)
    decreases left
  {
    if left <= 1 {
      assert ([[c]] + rest)[1..] == rest;
    } else {
      EmissionDecoded(c, left - 1, rest, true);
      var all := Emission(c, left) + rest;
      assert all[0] == "" && all[1..] == Emission(c, left - 1) + rest;
      assert "" + Flatten(all[1..]) == Flatten(all[1..]);
    }
  }

  /** The bytes of well-formed UTF-8 are decoded in this way, to the text they encode. */
  lemma {:induction false} Utf8IsDecoded(text: string)
    ensures IsDecoded(Emissions(text), false) && Flatten(Emissions(text)) == text
  {
    if text != "" {
      Utf8IsDecoded(text[1..]);
      EmissionDecoded(text[0], Utf8Width(text[0]), Emissions(text[1..]), false);
      assert [text[0]] + text[1..] == text;
    }
  }

  lemma {:induction false} FlushedDecoded(emitted: seq<string>, waiting: bool)
    requires IsDecoded(emitted, waiting)
    ensures IsDecoded(emitted + [""], waiting)
    decreases |emitted|
  {
    if emitted == [] {
      assert emitted + [""] == [""] && [""][1..] == [];
    } else {
      assert (emitted + [""])[0] == emitted[0] && (emitted + [""])[1..] == emitted[1..] + [""];
      FlushedDecoded(emitted[1..], emitted[0] == "");
    }
  }

  /**
   * For every text that fits, and every cut of its UTF-8 bytes into chunks that
   * are not empty, both readers deliver its data values.
   */
  lemma ReadersAgreeOnUtf8(text: string, chunks: seq<seq<string>>)
    requires [] !in chunks && Flatten(chunks) == Emissions(text) && FitsEveryCut(text)
    ensures var pieces := Pieces(chunks);
      var python, typescript := Py.Stream(pieces, ""), PushAll(INITIAL, pieces + [""]);
      && !python.raised && !typescript.overflow
      && python.data == DataOf(typescript.frames) == DataOf(SseBatch.Frames(text))
  {
    hide FitsEveryCut; hide Py.Stream; hide PushAll; hide IsDecoded; hide Emissions;
    Utf8IsDecoded(text);
    FlattenSnoc(chunks, [""]);
    FlushedDecoded(Emissions(text), false);
    FlattenSnoc(Emissions(text), "");
    assert text + "" == text;
    ReadersAgreeOnBytes(chunks, "");
  }
}
