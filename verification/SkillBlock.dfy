/** Block scalars of a skill document's front matter. The lines are numbered from 0 within it. */
module SkillBlock {
  import opened Common
  import opened Text

  datatype BlockStyle = Literal | Folded

  datatype Chomping = Clip | Strip | Keep

  datatype BlockError = TabIndentation(line: nat) | NotIndented | BadIndicator(c: char)

  datatype Block = Read(text: string, next: nat) | Refused(error: BlockError)

  predicate IsBlank(line: string)
  {
    Trim(line) == ""
  }

  /** The number of leading spaces; none when a tab comes before anything else. */
  function LeadingSpaces(line: string): (n: Option<nat>)
    ensures n.Some? ==> n.value <= |line|
  {
    if line == "" then Some(0)
    else if line[0] == '\t' then None
    else if line[0] != ' ' then Some(0)
    else match LeadingSpaces(line[1..]) case None => None case Some(n) => Some(n + 1)
  }

  method CountLeadingSpaces(line: string) returns (n: Option<nat>)
    ensures n == LeadingSpaces(line)
  {
    var spaces := 0;
    while spaces < |line|
      invariant 0 <= spaces <= |line|
      invariant LeadingSpaces(line) ==
                match LeadingSpaces(line[spaces..]) case None => None case Some(m) => Some(spaces + m)
    {
      assert line[spaces..][1..] == line[spaces + 1..];
      if line[spaces] == '\t' {
        return None;
      }
      if line[spaces] != ' ' {
        return Some(spaces);
      }
      spaces := spaces + 1;
    }
    return Some(spaces);
  }

  /** The first line from `i` on that is not blank, or the end. */
  function NextLine(front: seq<string>, i: nat): (k: nat)
    requires i <= |front|
    ensures i <= k <= |front|
    ensures forall j | i <= j < k :: IsBlank(front[j])
    ensures k < |front| ==> !IsBlank(front[k])
    decreases |front| - i
  {
    if i < |front| && IsBlank(front[i]) then NextLine(front, i + 1) else i
  }

  method SkipBlank(front: seq<string>, start: nat) returns (probe: nat)
    requires start <= |front|
    ensures probe == NextLine(front, start)
  {
    probe := start;
    while probe < |front| && IsBlank(front[probe])
      invariant start <= probe <= |front|
      invariant NextLine(front, start) == NextLine(front, probe)
    {
      probe := probe + 1;
    }
  }

  /** The content lines of a block whose indentation is `base`, and where it ends. */
  datatype Lines = Taken(content: seq<string>, next: nat) | Tab(line: nat)

  function Cons(line: string, rest: Lines): Lines
  {
    if rest.Taken? then rest.(content := [line] + rest.content) else rest
  }

  function ContentLines(front: seq<string>, i: nat, base: nat): (r: Lines)
    requires i <= |front|
    ensures r.Taken? ==> i <= r.next <= |front| && |r.content| == r.next - i
    decreases |front| - i
  {
    if i == |front| then Taken([], i)
    else if IsBlank(front[i]) then Cons("", ContentLines(front, i + 1, base))
    else match LeadingSpaces(front[i])
      case None => Tab(i)
      case Some(indent) =>
        if indent < base then Taken([], i)
        else Cons(front[i][base..], ContentLines(front, i + 1, base))
  }

  /** Folds lines: a space between neighbours, a line feed for an empty line. */
  function FoldedText(lines: seq<string>, afterEmpty: bool): string
  {
    if lines == [] then ""
    else if lines[0] == "" then "\n" + FoldedText(lines[1..], true)
    else (if afterEmpty then "" else " ") + lines[0] + FoldedText(lines[1..], false)
  }

  method FoldLines(lines: seq<string>) returns (folded: string)
    ensures folded == FoldedText(lines, true)
  {
    folded := "";
    var afterEmpty := true;
    for i := 0 to |lines|
      invariant FoldedText(lines, true) == folded + FoldedText(lines[i..], afterEmpty)
    {
      assert lines[i..][1..] == lines[i + 1..];
      ghost var rest := FoldedText(lines[i + 1..], lines[i] == "");
      if lines[i] == "" {
        ConcatAssociates(folded, "\n", rest);
        folded := folded + "\n";
        afterEmpty := true;
      } else {
        ghost var gap := if afterEmpty then "" else " ";
        ConcatAssociates(folded, gap + lines[i], rest);
        ConcatAssociates(folded, gap, lines[i]);
        if !afterEmpty {
          folded := folded + " ";
        } else {
          assert folded + gap == folded;
        }
        folded := folded + lines[i];
        afterEmpty := false;
      }
    }
  }

  /** The text without the line feeds at its end. */
  function Chomped(text: string): string
  {
    if text != "" && text[|text| - 1] == '\n' then Chomped(text[..|text| - 1]) else text
  }

  function Chomp(raw: string, chomping: Chomping): string
  {
    match chomping
    case Keep => raw
    case Strip => Chomped(raw)
    case Clip => if Chomped(raw) == "" then "" else Chomped(raw) + "\n"
  }

  function BlockText(content: seq<string>, style: BlockStyle, chomping: Chomping): string
  {
    Chomp((if style.Folded? then FoldedText(content, true) else Join(content, '\n')) + "\n", chomping)
  }

  /** The indentation of the block: the given one, or that of its first line that is not blank. */
  datatype Base = Indent(base: nat) | NoContent | TabAt(line: nat)

  function BaseOf(front: seq<string>, start: nat, explicit: Option<nat>): Base
    requires start <= |front|
  {
    if explicit.Some? then Indent(explicit.value)
    else
      var probe := NextLine(front, start);
      if probe == |front| then NoContent
      else match LeadingSpaces(front[probe]) case None => TabAt(probe) case Some(n) => Indent(n)
  }

  function BlockScalar(
    front: seq<string>, start: nat, style: BlockStyle, chomping: Chomping, explicit: Option<nat>): (r: Block)
    requires start <= |front|
    ensures r.Read? ==> start <= r.next <= |front|
  {
    match BaseOf(front, start, explicit)
    case TabAt(line) => Refused(TabIndentation(line))
    case NoContent => Read("", |front|)
    case Indent(base) =>
      if base == 0 then Refused(NotIndented)
      else match ContentLines(front, start, base)
        case Tab(line) => Refused(TabIndentation(line))
        case Taken(content, next) => Read(BlockText(content, style, chomping), next)
  }

  method ReadBlockScalar(front: seq<string>, start: nat, style: BlockStyle, chomping: Chomping, explicit: Option<nat>)
    returns (r: Block)
    requires start <= |front|
    ensures r == BlockScalar(front, start, style, chomping, explicit)
  {
    var base;
    if explicit.Some? {
      base := explicit.value;
    } else {
      var probe := SkipBlank(front, start);
      if probe == |front| {
        return Read("", |front|);
      }
      var found := CountLeadingSpaces(front[probe]);
      if found.None? {
        return Refused(TabIndentation(probe));
      }
      base := found.value;
    }
    if base == 0 {
      return Refused(NotIndented);
    }
    var taken := ReadContent(front, start, base);
    if taken.Tab? {
      return Refused(TabIndentation(taken.line));
    }
    var raw;
    if style.Folded? {
      raw := FoldLines(taken.content);
    } else {
      raw := Join(taken.content, '\n');
    }
    return Read(Chomp(raw + "\n", chomping), taken.next);
  }

  function After(content: seq<string>, rest: Lines): Lines
  {
    if rest.Taken? then rest.(content := content + rest.content) else rest
  }

  method ReadContent(front: seq<string>, start: nat, base: nat) returns (r: Lines)
    requires start <= |front|
    ensures r == ContentLines(front, start, base)
  {
    var content: seq<string> := [];
    var cursor := start;
    while cursor < |front|
      invariant start <= cursor <= |front|
      invariant ContentLines(front, start, base) == After(content, ContentLines(front, cursor, base))
    {
      var line := front[cursor];
      var kept := "";
      if !IsBlank(line) {
        var indent := CountLeadingSpaces(line);
        if indent.None? {
          return Tab(cursor);
        }
        if indent.value < base {
          break;
        }
        kept := line[base..];
      }
      AfterCons(content, kept, ContentLines(front, cursor + 1, base));
      content := content + [kept];
      cursor := cursor + 1;
    }
    return Taken(content, cursor);
  }

  lemma AfterCons(content: seq<string>, line: string, rest: Lines)
    ensures After(content, Cons(line, rest)) == After(content + [line], rest)
  {
    if rest.Taken? {
      ConcatAssociates(content, [line], rest.content);
    }
  }
}
