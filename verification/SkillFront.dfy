/** The front matter of a skill document: keys, their values, and which lines each of them takes. */
module SkillFront {
  import opened Common
  import opened Text
  import opened SkillBlock

  // ---- the readers of what follows a key ----

  predicate IsIndented(line: string)
  {
    line != "" && (line[0] == ' ' || line[0] == '\t')
  }

  /** The end of the indented lines from `i` on; blank lines belong to them only between two of them. */
  function SkipIndented(front: seq<string>, i: nat): (k: nat)
    requires i <= |front|
    ensures i <= k <= |front|
    decreases |front| - i
  {
    if i == |front| then i
    else if IsIndented(front[i]) then SkipIndented(front, i + 1)
    else if IsBlank(front[i]) then
      var probe := NextLine(front, i);
      if probe < |front| && IsIndented(front[probe]) then SkipIndented(front, probe + 1) else i
    else i
  }

  method SkipIndentedBlock(front: seq<string>, start: nat) returns (cursor: nat)
    requires start <= |front|
    ensures cursor == SkipIndented(front, start)
  {
    cursor := start;
    while cursor < |front|
      invariant start <= cursor <= |front| && SkipIndented(front, start) == SkipIndented(front, cursor)
      decreases |front| - cursor, cursor < |front| && IsBlank(front[cursor])
    {
      if IsIndented(front[cursor]) {
        cursor := cursor + 1;
        continue;
      }
      if IsBlank(front[cursor]) {
        var probe := SkipBlank(front, cursor);
        if probe < |front| && IsIndented(front[probe]) {
          cursor := probe;
          continue;
        }
      }
      break;
    }
  }

  /**
   * Only blank and indented lines are skipped, the last one indented; the skip
   * stops where no further indented line follows.
   */
  lemma {:induction false} SkippedLines(front: seq<string>, i: nat)
    requires i <= |front|
    ensures var k := SkipIndented(front, i);
      && (forall j | i <= j < k :: IsBlank(front[j]) || IsIndented(front[j]))
      && (i < k ==> IsIndented(front[k - 1]))
      && (k < |front| ==> !IsIndented(front[k]))
      && (k < |front| && IsBlank(front[k]) ==>
            NextLine(front, k) == |front| || !IsIndented(front[NextLine(front, k)]))
    decreases |front| - i
  {
    hide IsBlank; hide IsIndented;
    if i < |front| {
      if IsIndented(front[i]) {
        SkippedLines(front, i + 1);
      } else if IsBlank(front[i]) {
        var probe := NextLine(front, i);
        if probe < |front| && IsIndented(front[probe]) {
          SkippedLines(front, probe + 1);
        }
      }
    }
  }

  /**
   * What a plain value continues with: the trimmed indented lines, and "" for
   * every run of blank lines between them.
   */
  datatype Continuation = Continuation(lines: seq<string>, next: nat)

  function Continue(line: string, rest: Continuation): Continuation
  {
    rest.(lines := [line] + rest.lines)
  }

  function ContinuationAt(front: seq<string>, i: nat): (r: Continuation)
    requires i <= |front|
    ensures i <= r.next <= |front|
    decreases |front| - i
  {
    if i == |front| then Continuation([], i)
    else if IsBlank(front[i]) then
      var probe := NextLine(front, i);
      if probe < |front| && IsIndented(front[probe]) then Continue("", ContinuationAt(front, probe))
      else Continuation([], i)
    else if IsIndented(front[i]) then Continue(Trim(front[i]), ContinuationAt(front, i + 1))
    else Continuation([], i)
  }

  predicate IsOpenEnd(text: string)
  {
    text == "" || text[|text| - 1] == '\n'
  }

  /** The continued text: the lines folded onto the first one. */
  function ContinuedText(initial: string, lines: seq<string>): string
  {
    initial + FoldedText(lines, IsOpenEnd(initial))
  }

  lemma ContinueBlank(text: string, lines: seq<string>)
    ensures ContinuedText(text, [""] + lines) == ContinuedText(text + "\n", lines)
  {
    assert ([""] + lines)[1..] == lines;
    ConcatAssociates(text, "\n", FoldedText(lines, true));
  }

  lemma ContinueLine(text: string, line: string, lines: seq<string>)
    requires line != "" && line[|line| - 1] != '\n'
    ensures ContinuedText(text, [line] + lines) ==
      ContinuedText(text + (if IsOpenEnd(text) then "" else " ") + line, lines)
  {
    var gap := if IsOpenEnd(text) then "" else " ";
    assert ([line] + lines)[1..] == lines;
    ConcatAssociates(text, gap, line);
    ConcatAssociates(text, gap + line, FoldedText(lines, false));
  }

  lemma TrimmedEnd(line: string)
    requires !IsBlank(line)
    ensures Trim(line) != "" && Trim(line)[|Trim(line)| - 1] != '\n'
  {
    TrimEndStops(TrimStart(line));
  }

  lemma {:induction false} TrimEndStops(text: string)
    ensures TrimEnd(text) != "" ==> !IsWhitespace(TrimEnd(text)[|TrimEnd(text)| - 1])
  {
    if text != "" && IsWhitespace(text[|text| - 1]) {
      TrimEndStops(text[..|text| - 1]);
    }
  }

  method ReadPlainContinuation(front: seq<string>, start: nat, initial: string) returns (text: string, cursor: nat)
    requires start <= |front|
    ensures text == ContinuedText(initial, ContinuationAt(front, start).lines)
    ensures cursor == ContinuationAt(front, start).next
  {
    hide ContinuedText; hide IsBlank; hide Trim;
    text, cursor := initial, start;
    while cursor < |front|
      invariant start <= cursor <= |front|
      invariant ContinuedText(initial, ContinuationAt(front, start).lines) ==
        ContinuedText(text, ContinuationAt(front, cursor).lines)
      invariant ContinuationAt(front, start).next == ContinuationAt(front, cursor).next
      decreases |front| - cursor
    {
      var line := front[cursor];
      if IsBlank(line) {
        var probe := SkipBlank(front, cursor);
        if probe < |front| && IsIndented(front[probe]) {
          ContinueBlank(text, ContinuationAt(front, probe).lines);
          text := text + "\n";
          cursor := probe;
          continue;
        }
        break;
      }
      if IsIndented(line) {
        TrimmedEnd(line);
        ContinueLine(text, Trim(line), ContinuationAt(front, cursor + 1).lines);
        if text != "" && text[|text| - 1] != '\n' {
          text := text + " ";
        } else {
          assert text + "" == text;
        }
        text := text + Trim(line);
        cursor := cursor + 1;
        continue;
      }
      break;
    }
    NothingContinues(text);
  }

  lemma NothingContinues(text: string)
    ensures ContinuedText(text, []) == text
  {
  }
}
