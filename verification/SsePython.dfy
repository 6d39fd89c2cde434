/**
 * The Python event-stream reader: it normalises line breaks piece by piece
 * into a text buffer and splits the buffer at blank lines. It is shown to
 * yield the same data values as the TypeScript character machine.
 */
module SsePython {
  import opened Common
  import opened SseBatch

  const FRAME_LIMIT: nat := 16 * 1024 * 1024

  // ---- library string operations ----

  function ReplaceCr(text: string): string
  {
    if text == "" then ""
    else [if text[0] == '\r' then '\n' else text[0]] + ReplaceCr(text[1..])
  }

  /** The first position of an empty line, that is of two LFs, or the length of the text. */
  function FindBlankLine(text: string): (k: nat)
    ensures k <= |text|
    ensures k < |text| ==> k + 1 < |text| && text[k] == '\n' && text[k + 1] == '\n'
  {
    if |text| < 2 then |text|
    else if text[0] == '\n' && text[1] == '\n' then 0
    else 1 + FindBlankLine(text[1..])
  }

  // ---- one frame ----

  /** The data of a frame, or nothing when it has no data field. */
  function FrameData(frame: string): Option<string>
  {
    var values := DataValues(SplitOn(frame, '\n'));
    if values == [] then None else Some(Join(values, '\n'))
  }

  method SseFrameData(frame: string) returns (r: Option<string>)
    ensures r == FrameData(frame)
  {
    var lines := SplitOn(frame, '\n');
    var dataLines: Option<seq<string>> := None;
    var i := 0;
    while i < |lines|
      invariant 0 <= i <= |lines|
      invariant DataValues(lines) == (if dataLines.None? then [] else dataLines.value) + DataValues(lines[i..])
      invariant dataLines.Some? ==> dataLines.value != []
    {
      var value := LineData(lines[i]);
      assert lines[i..][0] == lines[i] && lines[i..][1..] == lines[i + 1..];
      ghost var held := if dataLines.None? then [] else dataLines.value;
      if value.Some? {
        ConcatAssociates(held, [value.value], DataValues(lines[i + 1..]));
        dataLines := Some((if dataLines.None? then [] else dataLines.value) + [value.value]);
      }
      i := i + 1;
    }
    assert lines[i..] == [];
    assert DataValues(lines) == if dataLines.None? then [] else dataLines.value;
    if dataLines.None? { return None; }
    r := Some(Join(dataLines.value, '\n'));
  }

  /** The loop body: the data value of one line, if it has one. */
  method LineData(line: string) returns (value: Option<string>)
    ensures value == FieldValue(line, "data")
  {
    if line == "" || line[0] == ':' { return None; }
    if line == "data" { return Some(""); }
    if "data:" <= line {
      var text := line[5..];
      if text != "" && text[0] == ' ' { text := text[1..]; }
      return Some(text);
    }
    value := None;
  }

  // ---- the stream ----

  datatype Held = Held(buffer: string, pendingCr: bool, bomChecked: bool)

  /** What a piece yields; `raised` is the size-limit error, which ends the stream. */
  datatype Yielded = Yielded(state: Held, data: seq<string>, raised: bool)

  const START := Held("", false, false)

  predicate StartsLf(text: string)
  {
    text != "" && text[0] == '\n'
  }

  predicate EndsCr(text: string)
  {
    text != "" && text[|text| - 1] == '\r'
  }

  /** The data of those frames that have any. */
  function Yields(frames: seq<string>): seq<string>
  {
    if frames == [] then []
    else
      var data := FrameData(frames[0]);
      (if data.None? then [] else [data.value]) + Yields(frames[1..])
  }

  lemma YieldsConcat(a: seq<string>, b: seq<string>)
    ensures Yields(a + b) == Yields(a) + Yields(b)
  {
    if a == [] {
      assert a + b == b;
    } else {
      assert (a + b)[0] == a[0] && (a + b)[1..] == a[1..] + b;
      YieldsConcat(a[1..], b);
    }
  }

  datatype Split = Split(frames: seq<string>, rest: string)

  /** The frames that blank lines complete, and the text after the last of them. */
  function SplitFrames(text: string): Split
    decreases |text|
  {
    var k := FindBlankLine(text);
    if k == |text| then Split([], text)
    else
      var more := SplitFrames(text[k + 2..]);
      Split([text[..k]] + more.frames, more.rest)
  }

  datatype Drained = Drained(rest: string, frames: seq<string>, raised: bool)

  /** Take every complete frame out of the buffer, checking the size limit. */
  function Drain(buffer: string): Drained
    decreases |buffer|
  {
    var k := FindBlankLine(buffer);
    if k == |buffer| then Drained(buffer, [], |buffer| > FRAME_LIMIT)
    else if k > FRAME_LIMIT then Drained(buffer[k + 2..], [], true)
    else
      var more := Drain(buffer[k + 2..]);
      Drained(more.rest, [buffer[..k]] + more.frames, more.raised)
  }

  function Prefixed(frames: seq<string>, d: Drained): Drained
  {
    d.(frames := frames + d.frames)
  }

  function Chunk(s: Held, piece: string): Yielded
  {
    var text := if s.bomChecked then piece else DropBom(piece);
    var drained := Drain(s.buffer + Normal(s.pendingCr, text));
    Yielded(Held(drained.rest, EndsCr(text), s.bomChecked || piece != ""), Yields(drained.frames), drained.raised)
  }

  function ReadAll(s: Held, pieces: seq<string>): Yielded
    decreases |pieces|
  {
    if pieces == [] then Yielded(s, [], false)
    else
      var first := Chunk(s, pieces[0]);
      if first.raised then first
      else
        var rest := ReadAll(first.state, pieces[1..]);
        Yielded(rest.state, first.data + rest.data, rest.raised)
  }

  /** What the end of the stream yields; here the size limit is no longer checked. */
  function FinishData(s: Held, tail: string): seq<string>
  {
    var text := if s.bomChecked then tail else DropBom(tail);
    Yields(SplitFrames(s.buffer + Normal(s.pendingCr, text)).frames)
  }

  /** A whole stream: its decoded pieces, and what the decoder still held at the end. */
  function Stream(pieces: seq<string>, tail: string): Yielded
  {
    var read := ReadAll(START, pieces);
    if read.raised then read else read.(data := read.data + FinishData(read.state, tail))
  }

  class Reader {
    var textBuffer: string
    var pendingCr: bool
    var bomChecked: bool

    ghost function Contents(): Held
      reads this
    {
      Held(textBuffer, pendingCr, bomChecked)
    }

    /** Until the first text arrives nothing is held. */
    ghost predicate Valid()
      reads this
    {
      !bomChecked ==> textBuffer == "" && !pendingCr
    }

    constructor ()
      ensures Valid() && Contents() == START
    {
      textBuffer, pendingCr, bomChecked := "", false, false;
    }

    /** One decoded piece. A mark can only be the first character of the first text that is not empty. */
    method Read(piece: string) returns (data: seq<string>, raised: bool)
      requires Valid()
      modifies this
      ensures Valid()
      ensures Yielded(Contents(), data, raised) == Chunk(old(Contents()), piece)
    {
      var text := piece;
      if !bomChecked && piece != "" {
        if piece[0] == BOM { text := piece[1..]; }
        bomChecked := true;
      }
      Append(text);
      // The second mark check of the source cannot fire: without a first text the buffer is empty.
      assert !bomChecked ==> textBuffer == "";
      data, raised := DrainBuffer();
    }

    /** Line breaks of one piece: swallow the LF of a split CRLF and end a CR line at once. */
    method Append(piece: string)
      modifies this`textBuffer, this`pendingCr
      ensures textBuffer == old(textBuffer) + Normal(old(pendingCr), piece)
      ensures pendingCr == EndsCr(piece)
    {
      var text := piece;
      PieceIsNormal(pendingCr, text);
      if pendingCr {
        if StartsLf(text) { text := text[1..]; }
        pendingCr := false;
      }
      var trailingCr := false;
      if EndsCr(text) {
        text := text[..|text| - 1];
        pendingCr := true;
        trailingCr := true;
      }
      if text != "" {
        textBuffer := textBuffer + ReplaceCr(ReplaceCrLf(text));
      }
      if trailingCr {
        textBuffer := textBuffer + "\n";
      }
    }

    /** The end of the stream: the decoder's last text, then the frames that are complete. */
    method Finish(tail: string) returns (data: seq<string>)
      modifies this
      ensures data == FinishData(old(Contents()), tail)
    {
      var text := tail;
      if !bomChecked && text != "" && text[0] == BOM {
        text := text[1..];
        bomChecked := true;
      }
      AppendLast(text);
      data := DrainLast();
    }

    method AppendLast(tail: string)
      modifies this`textBuffer, this`pendingCr
      ensures textBuffer == old(textBuffer) + Normal(old(pendingCr), tail)
    {
      if tail != "" {
        var text := if pendingCr && StartsLf(tail) then tail[1..] else tail;
        ReplaceIsNormal(text);
        textBuffer := textBuffer + ReplaceCr(ReplaceCrLf(text));
      }
      pendingCr := false;
    }

    /** The last loop has no size limit. */
    method DrainLast() returns (data: seq<string>)
      modifies this`textBuffer
      ensures data == Yields(SplitFrames(old(textBuffer)).frames)
    {
      data := [];
      ghost var all, frames := SplitFrames(textBuffer).frames, [];
      while FindBlankLine(textBuffer) < |textBuffer|
        invariant all == frames + SplitFrames(textBuffer).frames
        invariant data == Yields(frames)
        decreases |textBuffer|
      {
        var frame := NextFrame();
        data := YieldFrame(frame, data, frames);
        ConcatAssociates(frames, [frame], SplitFrames(textBuffer).frames);
        frames := frames + [frame];
      }
      assert all == frames;
    }

    /** The inner loop: split the buffer at blank lines. */
    method DrainBuffer() returns (data: seq<string>, raised: bool)
      modifies this`textBuffer
      ensures var drained := Drain(old(textBuffer));
              textBuffer == drained.rest && data == Yields(drained.frames) && raised == drained.raised
    {
      data := [];
      ghost var whole, frames := Drain(textBuffer), [];
      while FindBlankLine(textBuffer) < |textBuffer|
        invariant whole == Prefixed(frames, Drain(textBuffer))
        invariant data == Yields(frames)
        decreases |textBuffer|
      {
        var frame := NextFrame();
        if |frame| > FRAME_LIMIT {
          assert whole.frames == frames;
          return data, true;
        }
        data := YieldFrame(frame, data, frames);
        ConcatAssociates(frames, [frame], Drain(textBuffer).frames);
        frames := frames + [frame];
      }
      assert whole.frames == frames;
      raised := |textBuffer| > FRAME_LIMIT;
    }

    /** Split the buffer once. */
    method NextFrame() returns (frame: string)
      requires FindBlankLine(textBuffer) < |textBuffer|
      modifies this`textBuffer
      ensures var k := FindBlankLine(old(textBuffer));
              frame == old(textBuffer)[..k] && textBuffer == old(textBuffer)[k + 2..]
    {
      var k := FindBlankLine(textBuffer);
      frame := textBuffer[..k];
      textBuffer := textBuffer[k + 2..];
    }
  }

  method YieldFrame(frame: string, data: seq<string>, ghost frames: seq<string>) returns (more: seq<string>)
    requires data == Yields(frames)
    ensures more == Yields(frames + [frame])
  {
    var found := SseFrameData(frame);
    more := if found.None? then data else data + [found.value];
    YieldsConcat(frames, [frame]);
    assert [frame][1..] == [];
  }

  // ---- line breaks ----

  /** Every CRLF, CR and LF as one LF; `pending` says that a CR precedes the text. */
  function Normal(pending: bool, text: string): string
    decreases |text|
  {
    if text == "" then ""
    else if pending && text[0] == '\n' then Normal(false, text[1..])
    else [if text[0] == '\r' then '\n' else text[0]] + Normal(text[0] == '\r', text[1..])
  }

  /** The two replacements together normalise. */
  lemma ReplaceIsNormal(text: string)
    ensures ReplaceCr(ReplaceCrLf(text)) == Normal(false, text)
    decreases |text|
  {
    if text != "" {
      if |text| > 1 && text[0] == '\r' && text[1] == '\n' {
        ReplaceIsNormal(text[2..]);
        assert text[1..][1..] == text[2..];
        var rest := ReplaceCrLf(text[2..]);
        assert ("\n" + rest)[0] == '\n' && ("\n" + rest)[1..] == rest;
      } else {
        ReplaceIsNormal(text[1..]);
        var rest := ReplaceCrLf(text[1..]);
        assert ([text[0]] + rest)[0] == text[0] && ([text[0]] + rest)[1..] == rest;
      }
    }
  }

  /** Whether a CR precedes what comes after a text. */
  predicate Pending(pending: bool, text: string)
  {
    if text == "" then pending else EndsCr(text)
  }

  lemma {:induction false} NormalConcat(pending: bool, a: string, b: string)
    ensures Normal(pending, a + b) == Normal(pending, a) + Normal(Pending(pending, a), b)
    decreases |a|
  {
    if a == "" {
      assert a + b == b;
    } else {
      assert (a + b)[0] == a[0] && (a + b)[1..] == a[1..] + b;
      var after := a[0] == '\r';
      NormalConcat(after, a[1..], b);
      assert Pending(after, a[1..]) == Pending(pending, a) by {
        assert a[1..] != "" ==> a[1..][|a| - 2] == a[|a| - 1];
      }
      var tail := Normal(Pending(pending, a), b);
      assert Normal(after, a[1..] + b) == Normal(after, a[1..]) + tail;
    }
  }

  /** The reader's handling of one piece: swallow an LF, set a last CR aside, normalise, put it back as LF. */
  lemma PieceIsNormal(pending: bool, piece: string)
    ensures var piece1 := if pending && StartsLf(piece) then piece[1..] else piece;
            var body := if EndsCr(piece1) then piece1[..|piece1| - 1] else piece1;
            && EndsCr(piece1) == EndsCr(piece)
            && Normal(pending, piece) == ReplaceCr(ReplaceCrLf(body)) + if EndsCr(piece1) then "\n" else ""
  {
    var piece1 := if pending && StartsLf(piece) then piece[1..] else piece;
    var body := if EndsCr(piece1) then piece1[..|piece1| - 1] else piece1;
    ReplaceIsNormal(body);
    if EndsCr(piece1) {
      assert piece1 == body + "\r";
      NormalConcat(false, body, "\r");
      assert Normal(false, "\r") == "\n" + Normal(true, "");
    }
  }
}
