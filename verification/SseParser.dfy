/**
 * The TypeScript server-sent-event decoder: a machine that consumes one
 * character at a time and keeps its progress between pieces of the stream.
 */
module SseParser {
  import opened Common

  const MAX_FRAME_CHARS: nat := 16 * 1024 * 1024

  datatype Frame = Frame(data: string, id: Option<string>, event: Option<string>)

  datatype State = State(
    line: string, data: seq<string>, id: Option<string>, event: Option<string>,
    skipLf: bool, started: bool, size: nat)

  /** What feeding characters yields; `overflow` is the thrown size-limit error. */
  datatype Fed = Fed(state: State, frames: seq<Frame>, overflow: bool)

  const INITIAL := State("", [], None, None, false, false, 0)

  predicate IsBreak(c: char)
  {
    c == '\r' || c == '\n'
  }

  /** The text before the first colon of a line. */
  function FieldOf(line: string): string
  {
    line[..IndexOf(line, ':')]
  }

  /** The text after the first colon, less one leading space; empty without a colon. */
  function ValueOf(line: string): string
  {
    var colon := IndexOf(line, ':');
    var value := if colon == |line| then "" else line[colon + 1..];
    if value != "" && value[0] == ' ' then value[1..] else value
  }

  /** The fields after a line that is not blank. */
  function Interpret(s: State, line: string): State
    requires line != ""
  {
    var field, value := FieldOf(line), ValueOf(line);
    s.(line := "",
       data := if field == "data" then s.data + [value] else s.data,
       id := if field == "id" && '\0' !in value then Some(value) else s.id,
       event := if field == "event" then Some(value) else s.event)
  }

  /** The line is complete: dispatch on a blank one, otherwise interpret its field. */
  function EndLine(s: State): Fed
  {
    if s.line == "" then
      Fed(s.(data := [], event := None, size := 0),
          if s.data == [] then [] else [Frame(Join(s.data, '\n'), s.id, s.event)], false)
    else
      Fed(Interpret(s, s.line), [], false)
  }

  function Step(s: State, c: char): Fed
  {
    if !s.started && c == BOM then Fed(s.(started := true), [], false)
    else
      var s1 := s.(started := true, skipLf := false);
      if s.skipLf && c == '\n' then Fed(s1, [], false)
      else if IsBreak(c) then EndLine(s1.(skipLf := c == '\r'))
      else Fed(s1.(line := s.line + [c], size := s.size + 1), [], s.size + 1 > MAX_FRAME_CHARS)
  }

  /** One result after another; nothing comes after an overflow. */
  function Then(left: Fed, right: Fed): Fed
  {
    if left.overflow then left else Fed(right.state, left.frames + right.frames, right.overflow)
  }

  lemma ThenAssociates(a: Fed, b: Fed, c: Fed)
    ensures Then(a, Then(b, c)) == Then(Then(a, b), c)
  {
    ConcatAssociates(a.frames, b.frames, c.frames);
  }

  /** Feeding characters in order, stopping at the first one that overflows. */
  function Feed(s: State, text: string): Fed
    decreases |text|
  {
    if text == "" then Fed(s, [], false)
    else
      var first := Step(s, text[0]);
      Then(first, Feed(first.state, text[1..]))
  }

  /** Feeding is compositional: where a text is cut does not matter. */
  lemma FeedConcat(s: State, a: string, b: string)
    ensures Feed(s, a + b) == Then(Feed(s, a), Feed(Feed(s, a).state, b))
    decreases |a|
  {
    if a == "" {
      assert a + b == b;
      assert [] + Feed(s, b).frames == Feed(s, b).frames;
    } else {
      var first := Step(s, a[0]);
      assert (a + b)[0] == a[0] && (a + b)[1..] == a[1..] + b;
      FeedConcat(first.state, a[1..], b);
      ThenAssociates(first, Feed(first.state, a[1..]), Feed(Feed(first.state, a[1..]).state, b));
    }
  }

  lemma FeedOne(s: State, c: char)
    ensures Feed(s, [c]) == Step(s, c)
  {
    assert [c][1..] == "";
    assert Step(s, c).frames + [] == Step(s, c).frames;
  }

  /** Successive `push` calls; a call that throws delivers none of its frames and ends the stream. */
  function PushAll(s: State, pieces: seq<string>): Fed
    decreases |pieces|
  {
    if pieces == [] then Fed(s, [], false)
    else
      var first := Feed(s, pieces[0]);
      if first.overflow then Fed(first.state, [], true)
      else
        var rest := PushAll(first.state, pieces[1..]);
        Fed(rest.state, first.frames + rest.frames, rest.overflow)
  }

  lemma {:induction false} PushAllIsFeed(s: State, pieces: seq<string>)
    ensures PushAll(s, pieces).overflow == Feed(s, Flatten(pieces)).overflow
    ensures !PushAll(s, pieces).overflow ==> PushAll(s, pieces) == Feed(s, Flatten(pieces))
    decreases |pieces|
  {
    if pieces != [] {
      FeedConcat(s, pieces[0], Flatten(pieces[1..]));
      if !Feed(s, pieces[0]).overflow {
        PushAllIsFeed(Feed(s, pieces[0]).state, pieces[1..]);
      }
    }
  }

  datatype Pushed = Frames(frames: seq<Frame>) | Throws

  /** The stateful decoder. */
  class Parser {
    var line: string
    var data: seq<string>
    var id: Option<string>
    var event: Option<string>
    var skipLf: bool
    var started: bool
    var size: nat

    ghost function Contents(): State
      reads this
    {
      State(line, data, id, event, skipLf, started, size)
    }

    constructor ()
      ensures Contents() == INITIAL
    {
      line, data, id, event := "", [], None, None;
      skipLf, started, size := false, false, 0;
    }

    method Push(piece: string) returns (r: Pushed)
      modifies this
      ensures var fed := Feed(old(Contents()), piece);
              && Contents() == fed.state
              && r == if fed.overflow then Throws else Frames(fed.frames)
    {
      ghost var start := Contents();
      var frames: seq<Frame> := [];
      var i := 0;
      while i < |piece|
        invariant 0 <= i <= |piece|
        invariant Feed(start, piece[..i]) == Fed(Contents(), frames, false)
      {
        FeedSnoc(start, piece, i);
        var emitted, overflow := Accept(piece[i]);
        i := i + 1;
        if overflow {
          FeedConcat(start, piece[..i], piece[i..]);
          assert piece[..i] + piece[i..] == piece;
          return Throws;
        }
        frames := frames + emitted;
      }
      assert piece[..i] == piece;
      r := Frames(frames);
    }

    /** The loop body of `Push`: one character. */
    method Accept(c: char) returns (emitted: seq<Frame>, overflow: bool)
      modifies this
      ensures Fed(Contents(), emitted, overflow) == Step(old(Contents()), c)
    {
      emitted, overflow := [], false;
      if !started {
        started := true;
        if c == BOM { return; }
      }
      if skipLf {
        skipLf := false;
        if c == '\n' { return; }
      }
      if c == '\r' || c == '\n' {
        skipLf := c == '\r';
        emitted := FinishLine();
      } else {
        line := line + [c];
        size := size + 1;
        overflow := size > MAX_FRAME_CHARS;
      }
    }

    /** The branch for a line break: the line is complete. */
    method FinishLine() returns (emitted: seq<Frame>)
      modifies this
      ensures Fed(Contents(), emitted, false) == EndLine(old(Contents()))
    {
      emitted := [];
      var complete := line;
      line := "";
      if complete == "" {
        if data != [] { emitted := [Frame(Join(data, '\n'), id, event)]; }
        data := [];
        event := None;
        size := 0;
      } else if complete[0] != ':' {
        var field := FieldOf(complete);
        var value := ValueOf(complete);
        if field == "data" { data := data + [value]; }
        else if field == "id" && '\0' !in value { id := Some(value); }
        else if field == "event" { event := Some(value); }
      }
    }
  }

  /** One more character after a prefix. */
  lemma FeedSnoc(s: State, text: string, i: nat)
    requires i < |text|
    ensures var left := Feed(s, text[..i]); Feed(s, text[..i + 1]) == Then(left, Step(left.state, text[i]))
  {
    FeedConcat(s, text[..i], [text[i]]);
    assert text[..i] + [text[i]] == text[..i + 1];
    FeedOne(Feed(s, text[..i]).state, text[i]);
  }
}
