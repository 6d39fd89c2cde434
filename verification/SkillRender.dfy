/** A skill document written from its parts reads back as those parts. */
module SkillRender {
  import opened Common
  import opened Text
  import opened SkillScalar
  import opened SkillQuoting
  import opened SkillBlock
  import opened SkillBlockTrip
  import opened SkillFront
  import opened SkillFields
  import opened SkillDoc

  /** Double quotes with everything escaped that could break a line or start a comment. */
  const STYLE := Double({'\n', '\t', '\r', '\0'}, true)

  /** A key that can be written as it is. */
  predicate IsKey(key: string)
  {
    && key != "" && ':' !in key && '\n' !in key && '\r' !in key
    && !IsWhitespace(key[0]) && !IsWhitespace(key[|key| - 1]) && key[0] != '#'
  }

  function After(key: string, value: string): string
  {
    key + (": " + Quoted(STYLE, value))
  }

  /** Quoted text starts and ends with its mark. */
  lemma QuotedEnds(value: string)
    ensures var q := Quoted(STYLE, value);
      && |q| >= 2 && q[0] == '"' && Trim(q) == q && TrimStart(" " + q) == q && HeadOf(q) == NotABlock
  {
    var q := Quoted(STYLE, value);
    assert q[0] == '"' && q[|q| - 1] == '"';
    TrimQuoted(STYLE, value);
    TrimStartDrops(" ", q);
  }

  lemma {:induction false} FirstColon(key: string, rest: string)
    requires ':' !in key
    ensures SplitKey(key + (":" + rest)) == Some((key, rest))
  {
    var line := key + (":" + rest);
    ColonAt(key, rest);
    assert line[..|key|] == key && line[|key| + 1..] == rest;
  }

  lemma {:induction false} ColonAt(key: string, rest: string)
    requires ':' !in key
    ensures IndexOf(key + (":" + rest), ':') == |key|
  {
    if key == "" {
      assert key + (":" + rest) == ":" + rest;
    } else {
      assert (key + (":" + rest))[1..] == key[1..] + (":" + rest);
      ColonAt(key[1..], rest);
    }
  }

  lemma SplitAfter(key: string, value: string)
    requires IsKey(key)
    ensures SplitKey(After(key, value)) == Some((key, " " + Quoted(STYLE, value)))
  {
    assert ": " + Quoted(STYLE, value) == ":" + (" " + Quoted(STYLE, value));
    FirstColon(key, " " + Quoted(STYLE, value));
  }

  lemma TrimKey(key: string)
    requires IsKey(key)
    ensures Trim(key) == key
  {
  }

  /** A written line starts with its key. */
  lemma AfterStarts(key: string, value: string)
    requires IsKey(key)
    ensures var line := After(key, value);
      && line != "" && line[0] == key[0] && TrimStart(line) == line
      && Trim(line) != "" && Trim(line)[0] == key[0] && !IsBlank(line) && !IsIndented(line) && !IsIgnored(line)
  {
    var line := After(key, value);
    assert line[0] == key[0];
    assert TrimStart(line) == line;
    TrimEndFirst(line);
  }

  lemma ReadQuoted(value: string)
    ensures ReadScalar(Quoted(STYLE, value)) == Good(value)
    ensures ReadScalar(" " + Quoted(STYLE, value)) == Good(value)
  {
    hide ReadValue; hide Quoted;
    QuotedRoundTrip(STYLE, value);
    QuotedEnds(value);
    var q := Quoted(STYLE, value);
    var spaced := " " + q;
    assert spaced[1..] == q;
    var text := Uncommented(q, true);
    assert Uncommented(spaced, true) == " " + text;
    assert (" " + text)[1..] == text;
    assert TrimStart(" " + text) == TrimStart(text);
  }

  /** Nothing, or a line that starts another item. */
  predicate StartsItem(front: seq<string>, i: nat)
  {
    i < |front| ==> !IsBlank(front[i]) && !IsIndented(front[i])
  }

  /** A written field is one item of one line. */
  lemma FieldItem(front: seq<string>, i: nat, key: string, value: string)
    requires i < |front| && IsKey(key) && front[i] == After(key, value) && StartsItem(front, i + 1)
    ensures ItemAt(front, i) == Found(Keyed(i, i + 1, key, Words(value)))
  {
    hide Quoted; hide ReadScalar; hide SplitKey; hide Trim; hide TrimStart; hide IsBlank; hide HeadOf;
    hide IsKey; hide IsIgnored; hide After;
    AfterStarts(key, value);
    SplitAfter(key, value);
    KeyFacts(key);
    QuotedEnds(value);
    ReadQuoted(value);
    assert SkipIndented(front, i + 1) == i + 1;
  }

  lemma KeyFacts(key: string)
    requires IsKey(key)
    ensures key != "" && Trim(key) == key
  {
    TrimKey(key);
  }

  // ---- block scalars ----

  function WriteHead(style: BlockStyle, chomping: Chomping, indent: Option<nat>): string
    requires indent.Some? ==> 1 <= indent.value <= 9
  {
    (if style.Folded? then ">" else "|")
    + ((match chomping case Clip => "" case Strip => "-" case Keep => "+")
       + (if indent.Some? then [('0' as nat + indent.value) as char] else ""))
  }

  lemma HeadBack(style: BlockStyle, chomping: Chomping, indent: Option<nat>)
    requires indent.Some? ==> 1 <= indent.value <= 9
    ensures HeadOf(WriteHead(style, chomping, indent)) == BlockHead(style, chomping, indent)
    ensures WriteHead(style, chomping, indent) != "" && !IsWhitespace(WriteHead(style, chomping, indent)[0])
  {
    var head := WriteHead(style, chomping, indent);
    var digit := if indent.Some? then [('0' as nat + indent.value) as char] else "";
    var mark := match chomping case Clip => "" case Strip => "-" case Keep => "+";
    assert head[1..] == mark + digit;
    assert HeadRest(digit, style, chomping, None) == BlockHead(style, chomping, indent) by {
      assert digit != "" ==> digit[1..] == "";
    }
    assert mark == "" ==> mark + digit == digit;
    assert mark != "" ==> (mark + digit)[1..] == digit;
  }

  function BlockKey(key: string, head: string): string
  {
    key + (":" + (" " + head))
  }

  lemma BlockKeyStarts(key: string, head: string)
    requires IsKey(key)
    ensures var line := BlockKey(key, head); !IsIndented(line) && !IsIgnored(line)
  {
    var line := BlockKey(key, head);
    assert line[0] == key[0];
    assert TrimStart(line) == line;
    TrimEndFirst(line);
  }

  /**
   * A key with a block scalar is one item: its text is what style and
   * chomping make of the lines, and it takes exactly the key line and them.
   */
  lemma BlockItem(
    front: seq<string>, i: nat, key: string, lines: seq<string>, n: nat, rest: seq<string>,
    style: BlockStyle, chomping: Chomping)
    requires i < |front| && IsKey(key) && 1 <= n <= 9 && AllWritable(lines) && EndsBlock(rest, n)
    requires front[i] == BlockKey(key, WriteHead(style, chomping, Some(n)))
    requires front[i + 1..] == IndentAll(lines, n) + rest
    ensures ItemAt(front, i) == Found(Keyed(i, i + 1 + |lines|, key, Words(BlockText(lines, style, chomping))))
  {
    hide WriteHead; hide IsIgnored; hide IsIndented; hide SplitKey; hide Trim; hide TrimStart; hide HeadOf;
    hide BlockScalar;
    hide BlockText; hide IsKey; hide IndentAll; hide AllWritable; hide EndsBlock;
    var head := WriteHead(style, chomping, Some(n));
    HeadBack(style, chomping, Some(n));
    BlockKeyStarts(key, head);
    KeyFacts(key);
    KeyHasNoColon(key);
    FirstColon(key, " " + head);
    TrimStartDrops(" ", head);
    ExplicitBlock(front, i + 1, lines, n, rest, style, chomping);
  }

  lemma KeyHasNoColon(key: string)
    requires IsKey(key)
    ensures ':' !in key
  {
  }

  // ---- metadata ----

  function MetaText(pair: (string, string)): string
  {
    "  " + After(pair.0, pair.1)
  }

  predicate IsPair(pair: (string, string))
  {
    IsKey(pair.0) && pair.1 != ""
  }

  lemma MetaLineBack(pair: (string, string))
    requires IsPair(pair)
    ensures ReadMetaLine(MetaText(pair), 2) == Pair(pair.0, pair.1)
    ensures LeadingSpaces(MetaText(pair)) == Some(2) && !IsBlank(MetaText(pair))
  {
    hide Quoted; hide ReadScalar; hide SplitKey; hide IsKey; hide After;
    var line := MetaText(pair);
    var body := After(pair.0, pair.1);
    AfterStarts(pair.0, pair.1);
    AfterFirst(pair.0, pair.1);
    SpacedLine(body);
    SplitAfter(pair.0, pair.1);
    KeyFacts(pair.0);
    ReadQuoted(pair.1);
  }

  lemma AfterFirst(key: string, value: string)
    requires IsKey(key)
    ensures var line := After(key, value); line != "" && !IsWhitespace(line[0]) && line[0] != '#'
  {
    assert After(key, value)[0] == key[0];
  }

  lemma SpacedLine(body: string)
    requires body != "" && !IsWhitespace(body[0])
    ensures TrimStart("  " + body) == body && LeadingSpaces("  " + body) == Some(2) && !IsBlank("  " + body)
  {
    TrimStartDrops("  ", body);
    TrimEndFirst(body);
    var line := "  " + body;
    assert line[1..] == " " + body && (" " + body)[1..] == body;
    assert LeadingSpaces(body) == Some(0);
    assert LeadingSpaces(" " + body) == Some(1);
  }

  function MetaTexts(pairs: seq<(string, string)>): (lines: seq<string>)
    ensures |lines| == |pairs|
  {
    if pairs == [] then [] else [MetaText(pairs[0])] + MetaTexts(pairs[1..])
  }

  predicate ArePairs(pairs: seq<(string, string)>)
  {
    forall i | 0 <= i < |pairs| :: IsPair(pairs[i])
  }

  lemma {:induction false} MetaLinesBack(front: seq<string>, i: nat, pairs: seq<(string, string)>)
    requires i <= |front| && front[i..] == MetaTexts(pairs) && ArePairs(pairs)
    ensures MetaLines(front, i, 2) == Meta(pairs, |front|)
    decreases |pairs|
  {
    hide ReadMetaLine; hide IsPair; hide MetaText;
    if pairs == [] {
      assert i == |front|;
    } else {
      assert front[i] == front[i..][0] == MetaText(pairs[0]);
      assert front[i + 1..] == front[i..][1..] == MetaTexts(pairs[1..]);
      assert IsPair(pairs[0]);
      MetaLineBack(pairs[0]);
      MetaLinesBack(front, i + 1, pairs[1..]);
      assert pairs == [pairs[0]] + pairs[1..];
    }
  }

  lemma MetadataItem(front: seq<string>, i: nat, pairs: seq<(string, string)>)
    requires i < |front| && front[i] == "metadata" + ":" && front[i + 1..] == MetaTexts(pairs) && ArePairs(pairs)
    ensures ItemAt(front, i) == Found(Keyed(i, |front|, "metadata", Pairs(pairs)))
  {
    hide ReadMetaLine; hide IsPair; hide MetaText; hide MetaLines; hide SplitKey; hide Trim; hide TrimStart;
    hide IsBlank; hide IsIgnored; hide HeadOf; hide LeadingSpaces;
    MetadataHead();
    MetaLinesBack(front, i + 1, pairs);
    if pairs == [] {
      assert i + 1 == |front|;
    } else {
      assert front[i + 1] == front[i + 1..][0] == MetaText(pairs[0]);
      assert IsPair(pairs[0]);
      MetaLineBack(pairs[0]);
      assert NextLine(front, i + 1) == i + 1;
    }
  }

  lemma MetadataHead()
    ensures var line := "metadata" + ":";
      && !IsIgnored(line) && !IsIndented(line) && SplitKey(line) == Some(("metadata", ""))
      && Trim("metadata") == "metadata" && TrimStart("") == "" && Trim("") == "" && HeadOf("") == NotABlock
  {
    hide Trim; hide SplitKey; hide IsIgnored;
    assert IsKey("metadata");
    TrimKey("metadata");
    BareHead("metadata");
    NothingTrimmed();
  }

  lemma NothingTrimmed()
    ensures TrimStart("") == "" && Trim("") == "" && HeadOf("") == NotABlock
  {
  }

  lemma BareHead(key: string)
    requires IsKey(key)
    ensures var line := key + ":"; !IsIgnored(line) && !IsIndented(line) && SplitKey(line) == Some((key, ""))
  {
    hide SplitKey;
    FirstColon(key, "");
    assert key + (":" + "") == key + ":";
    var line := key + ":";
    assert line[0] == key[0] && line[|line| - 1] == ':';
    assert TrimStart(line) == line && TrimEnd(line) == line;
  }

  // ---- the whole front matter ----

  function FieldTexts(fields: seq<(string, string)>): (lines: seq<string>)
    ensures |lines| == |fields|
  {
    if fields == [] then [] else [After(fields[0].0, fields[0].1)] + FieldTexts(fields[1..])
  }

  function RenderFront(fields: seq<(string, string)>, pairs: seq<(string, string)>): seq<string>
  {
    FieldTexts(fields) + (["metadata" + ":"] + MetaTexts(pairs))
  }

  predicate AreFields(fields: seq<(string, string)>)
  {
    forall i | 0 <= i < |fields| :: IsField(fields[i].0)
  }

  lemma FieldIsKey(key: string)
    requires IsField(key)
    ensures IsKey(key)
  {
  }

  function AssignedAll(f: Fields, fields: seq<(string, string)>): Fields
    decreases |fields|
  {
    if fields == [] then f else AssignedAll(Assigned(f, fields[0].0, fields[0].1), fields[1..])
  }

  /** The fields that a written front matter stands for. */
  function Meant(fields: seq<(string, string)>, pairs: seq<(string, string)>): Fields
  {
    AssignedAll(NO_FIELDS, fields).(metadata := Entered(map[], pairs))
  }

  lemma StartsRendered(front: seq<string>, i: nat, fields: seq<(string, string)>, pairs: seq<(string, string)>)
    requires i <= |front| && front[i..] == RenderFront(fields, pairs) && AreFields(fields)
    ensures i < |front| && StartsItem(front, i)
    ensures front[i] == if fields == [] then "metadata" + ":" else After(fields[0].0, fields[0].1)
  {
    hide IsKey; hide IsBlank; hide IsIndented; hide After;
    assert front[i] == front[i..][0];
    if fields == [] {
      MetadataHead();
      NotIgnoredNotBlank("metadata" + ":");
    } else {
      FieldIsKey(fields[0].0);
      AfterStarts(fields[0].0, fields[0].1);
    }
  }

  lemma NotIgnoredNotBlank(line: string)
    requires !IsIgnored(line)
    ensures !IsBlank(line)
  {
  }

  /** Reading a written front matter applies its fields in order, and then its metadata. */
  lemma {:induction false} FrontBack(
    front: seq<string>, i: nat, fields: seq<(string, string)>, pairs: seq<(string, string)>, f: Fields)
    requires i <= |front| && front[i..] == RenderFront(fields, pairs) && AreFields(fields) && ArePairs(pairs)
    ensures ItemsFrom(front, i).All?
    ensures AllApplied(f, ItemsFrom(front, i).items) ==
            AssignedAll(f, fields).(metadata := AssignedAll(f, fields).metadata + Entered(map[], pairs))
    decreases |fields|
  {
    hide ItemAt; hide IsField; hide IsPair; hide After; hide Assigned; hide IsKey; hide MetaTexts;
    hide StartsItem; hide Entered;
    StartsRendered(front, i, fields, pairs);
    if fields == [] {
      assert front[i + 1..] == front[i..][1..] == MetaTexts(pairs);
      MetadataItem(front, i, pairs);
      var item := Keyed(i, |front|, "metadata", Pairs(pairs));
      assert [item] + [] == [item] && [item][1..] == [];
    } else {
      var key, value := fields[0].0, fields[0].1;
      FieldIsKey(key);
      assert front[i + 1..] == front[i..][1..] == RenderFront(fields[1..], pairs);
      assert AreFields(fields[1..]);
      StartsRendered(front, i + 1, fields[1..], pairs);
      FieldItem(front, i, key, value);
      FrontBack(front, i + 1, fields[1..], pairs, Assigned(f, key, value));
      var item := Keyed(i, i + 1, key, Words(value));
      var rest := ItemsFrom(front, i + 1).items;
      assert ([item] + rest)[1..] == rest;
    }
  }

  lemma {:induction false} NoMetadata(f: Fields, fields: seq<(string, string)>)
    ensures AssignedAll(f, fields).metadata == f.metadata
    decreases |fields|
  {
    if fields != [] {
      NoMetadata(Assigned(f, fields[0].0, fields[0].1), fields[1..]);
    }
  }

  /** A written front matter reads back as the fields it was written from. */
  lemma FrontRoundTrip(fields: seq<(string, string)>, pairs: seq<(string, string)>)
    requires AreFields(fields) && ArePairs(pairs)
    ensures FrontOf(ItemsFrom(RenderFront(fields, pairs), 0)) == Parsed(Meant(fields, pairs))
  {
    hide ItemsFrom; hide RenderFront; hide AllApplied; hide AssignedAll; hide Entered;
    var front := RenderFront(fields, pairs);
    assert front[0..] == front;
    FrontBack(front, 0, fields, pairs, NO_FIELDS);
    NoMetadata(NO_FIELDS, fields);
    assert map[] + Entered(map[], pairs) == Entered(map[], pairs);
  }

  // ---- the whole document ----

  /** Every line with its line feed. */
  function LineFeeds(lines: seq<string>): string
  {
    if lines == [] then "" else lines[0] + ("\n" + LineFeeds(lines[1..]))
  }

  function RenderDoc(fields: seq<(string, string)>, pairs: seq<(string, string)>, body: string): string
  {
    LineFeeds([FENCE] + RenderFront(fields, pairs) + [FENCE]) + body
  }

  predicate IsOneLine(line: string)
  {
    '\n' !in line && '\r' !in line
  }

  lemma {:induction false} NoCrLf(line: string, rest: string)
    requires '\r' !in line
    ensures ReplaceCrLf(line + rest) == line + ReplaceCrLf(rest)
  {
    if line == "" {
      assert line + rest == rest;
    } else {
      assert (line + rest)[1..] == line[1..] + rest;
      NoCrLf(line[1..], rest);
      ConcatAssociates([line[0]], line[1..], ReplaceCrLf(rest));
      assert [line[0]] + line[1..] == line;
    }
  }

  /** The lines of a text that starts with whole lines. */
  lemma {:induction false} SplitLines(lines: seq<string>, body: string)
    requires forall i | 0 <= i < |lines| :: IsOneLine(lines[i])
    ensures SplitOn(ReplaceCrLf(LineFeeds(lines) + body), '\n') == lines + SplitOn(ReplaceCrLf(body), '\n')
  {
    hide SplitOn; hide ReplaceCrLf;
    if lines == [] {
      assert LineFeeds(lines) + body == body;
      assert lines + SplitOn(ReplaceCrLf(body), '\n') == SplitOn(ReplaceCrLf(body), '\n');
    } else {
      var line := lines[0];
      var rest := LineFeeds(lines[1..]) + body;
      assert IsOneLine(line);
      ConcatAssociates("\n", LineFeeds(lines[1..]), body);
      ConcatAssociates(line, "\n" + LineFeeds(lines[1..]), body);
      ConcatAssociates(line, "\n", rest);
      NoCrLf(line + "\n", rest);
      SplitOnConcat(line, ReplaceCrLf(rest), '\n');
      SplitOnAbsent(line, '\n');
      SplitLines(lines[1..], body);
      ConcatAssociates([line], lines[1..], SplitOn(ReplaceCrLf(body), '\n'));
      assert [line] + lines[1..] == lines;
    }
  }

  lemma {:induction false} QuotedIsOneLine(value: string)
    ensures IsOneLine(WriteText(STYLE, value))
  {
    if value != "" {
      QuotedIsOneLine(value[1..]);
      CharIsOneLine(value[0]);
    }
  }

  lemma CharIsOneLine(c: char)
    ensures IsOneLine(WriteChar(STYLE, c))
  {
  }

  /** A line of the front matter: it stays one line, and it is no fence. */
  predicate IsFrontLine(line: string)
  {
    IsOneLine(line) && !IsFence(line)
  }

  lemma AfterIsOneLine(key: string, value: string)
    requires IsKey(key)
    ensures IsOneLine(After(key, value))
  {
    QuotedIsOneLine(value);
  }

  lemma FieldIsFrontLine(key: string, value: string)
    requires IsField(key)
    ensures IsFrontLine(After(key, value))
  {
    FieldIsKey(key);
    AfterIsOneLine(key, value);
    var line := After(key, value);
    assert line[0] == key[0];
    TrimEndFirst(line);
  }

  lemma MetaIsFrontLine(pair: (string, string))
    requires IsPair(pair)
    ensures IsFrontLine(MetaText(pair))
  {
    hide After; hide IsKey;
    AfterIsOneLine(pair.0, pair.1);
    AfterFirst(pair.0, pair.1);
    var body := After(pair.0, pair.1);
    var line := MetaText(pair);
    assert line == "  " + body;
    TrimEndKeeps("  ", body);
  }

  lemma {:induction false} TrimEndKeeps(blank: string, body: string)
    requires blank != "" && body != "" && !IsWhitespace(body[0])
    ensures TrimEnd(blank + body) != "" && TrimEnd(blank + body)[0] == blank[0]
  {
    var text := blank + body;
    assert text[|text| - 1] == body[|body| - 1];
    if IsWhitespace(text[|text| - 1]) {
      assert text[..|text| - 1] == blank + body[..|body| - 1];
      TrimEndKeeps(blank, body[..|body| - 1]);
    }
  }

  predicate AreFrontLines(lines: seq<string>)
  {
    forall i | 0 <= i < |lines| :: IsFrontLine(lines[i])
  }

  lemma FrontLinesConcat(a: seq<string>, b: seq<string>)
    requires AreFrontLines(a) && AreFrontLines(b)
    ensures AreFrontLines(a + b)
  {
  }

  lemma {:induction false} FieldTextsAreLines(fields: seq<(string, string)>)
    requires AreFields(fields)
    ensures AreFrontLines(FieldTexts(fields))
  {
    hide IsField; hide IsFrontLine;
    if fields != [] {
      FieldIsFrontLine(fields[0].0, fields[0].1);
      FieldTextsAreLines(fields[1..]);
    }
  }

  lemma {:induction false} MetaTextsAreLines(pairs: seq<(string, string)>)
    requires ArePairs(pairs)
    ensures AreFrontLines(MetaTexts(pairs))
  {
    hide IsPair; hide IsFrontLine;
    if pairs != [] {
      assert IsPair(pairs[0]);
      MetaIsFrontLine(pairs[0]);
      MetaTextsAreLines(pairs[1..]);
    }
  }

  lemma RenderedIsFront(fields: seq<(string, string)>, pairs: seq<(string, string)>)
    requires AreFields(fields) && ArePairs(pairs)
    ensures AreFrontLines(RenderFront(fields, pairs))
  {
    hide FieldTexts; hide MetaTexts; hide IsFrontLine;
    FieldTextsAreLines(fields);
    MetaTextsAreLines(pairs);
    HeadIsFrontLine();
    FrontLinesConcat(["metadata" + ":"], MetaTexts(pairs));
    FrontLinesConcat(FieldTexts(fields), ["metadata" + ":"] + MetaTexts(pairs));
  }

  lemma HeadIsFrontLine()
    ensures IsFrontLine("metadata" + ":")
  {
    var line := "metadata" + ":";
    assert line[|line| - 1] == ':';
    assert TrimEnd(line) == line;
  }

  lemma FenceIsFence()
    ensures IsFence(FENCE) && IsOneLine(FENCE)
  {
  }

  lemma {:induction false} FenceAfter(lines: seq<string>, i: nat, front: seq<string>, rest: seq<string>)
    requires i <= |lines| && lines[i..] == front + ([FENCE] + rest) && AreFrontLines(front)
    ensures FenceFrom(lines, i) == i + |front|
    decreases |front|
  {
    hide IsFence;
    FenceIsFence();
    assert lines[i] == lines[i..][0];
    if front != [] {
      assert IsFrontLine(front[0]);
      assert lines[i + 1..] == lines[i..][1..] == front[1..] + ([FENCE] + rest);
      FenceAfter(lines, i + 1, front[1..], rest);
    }
  }

  /** The lines of a document between and after its fences. */
  lemma FencedLines(front: seq<string>, body: seq<string>)
    requires AreFrontLines(front)
    ensures DocOfLines([FENCE] + front + [FENCE] + body) == DocOf(FrontOf(ItemsFrom(front, 0)), body)
  {
    hide DocOf; hide FrontOf; hide IsFence; hide FenceFrom;
    var lines := [FENCE] + front + [FENCE] + body;
    FenceIsFence();
    assert lines[1..] == front + ([FENCE] + body);
    FenceAfter(lines, 1, front, body);
    assert lines[1..1 + |front|] == front;
    assert lines[2 + |front|..] == body;
  }

  lemma RenderedLines(front: seq<string>, body: string)
    requires AreFrontLines(front)
    ensures SplitOn(ReplaceCrLf(DropBom(LineFeeds([FENCE] + front + [FENCE]) + body)), '\n') ==
            [FENCE] + front + [FENCE] + SplitOn(ReplaceCrLf(body), '\n')
  {
    hide SplitOn; hide ReplaceCrLf; hide IsFence;
    var lines := [FENCE] + front + [FENCE];
    FenceIsFence();
    assert forall i | 0 <= i < |front| :: IsFrontLine(front[i]);
    forall i | 0 <= i < |lines|
      ensures IsOneLine(lines[i])
    {
      if 1 <= i <= |front| {
        assert IsFrontLine(front[i - 1]);
      }
    }
    var source := LineFeeds(lines) + body;
    assert source[0] == FENCE[0];
    SplitLines(lines, body);
  }

  /**
   * A skill document written from fields, metadata and a body reads back as
   * exactly those: every text field with the last text given for it, the
   * metadata with the last value of every key, and the body trimmed.
   */
  lemma DocRoundTrip(fields: seq<(string, string)>, pairs: seq<(string, string)>, body: string)
    requires AreFields(fields) && ArePairs(pairs)
    ensures var m := Meant(fields, pairs);
      var r := ReadDoc(RenderDoc(fields, pairs, body));
      && r == DocOf(Parsed(m), [ReplaceCrLf(body)])
      && (m.name.Some? && Trim(m.name.value) != "" && m.description.Some? && Trim(m.description.value) != "" ==>
            r == Document(Doc(m.name.value, m.description.value, m.license, m.compatibility, m.metadata, m.allowedTools,
                              Trim(ReplaceCrLf(body)))))
  {
    hide Meant; hide RenderFront; hide ItemsFrom; hide FrontOf; hide SplitOn; hide ReplaceCrLf; hide DropBom;
    hide LineFeeds; hide DocOfLines; hide Trim;
    var front := RenderFront(fields, pairs);
    RenderedIsFront(fields, pairs);
    RenderedLines(front, body);
    var text := SplitOn(ReplaceCrLf(body), '\n');
    FencedLines(front, text);
    FrontRoundTrip(fields, pairs);
    JoinOfSplit(ReplaceCrLf(body), '\n');
    assert Join([ReplaceCrLf(body)], '\n') == ReplaceCrLf(body);
  }
}
