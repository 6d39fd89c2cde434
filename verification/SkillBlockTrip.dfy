/** Block scalars written and read back, and what folding and chomping do. */
module SkillBlockTrip {
  import opened Common
  import opened Text
  import opened SkillBlock

  function Spaces(n: nat): (spaces: string)
    ensures |spaces| == n
  {
    if n == 0 then "" else " " + Spaces(n - 1)
  }

  /** A line of a block, indented unless it is empty. */
  function Indented(line: string, n: nat): string
  {
    if line == "" then "" else Spaces(n) + line
  }

  function IndentAll(lines: seq<string>, n: nat): (written: seq<string>)
    ensures |written| == |lines|
    ensures forall i | 0 <= i < |lines| :: written[i] == Indented(lines[i], n)
  {
    if lines == [] then [] else [Indented(lines[0], n)] + IndentAll(lines[1..], n)
  }

  /** Empty, or with something besides whitespace and no tab in front of it. */
  predicate IsWritable(line: string)
  {
    line == "" || (!IsBlank(line) && LeadingSpaces(line).Some?)
  }

  predicate AllWritable(lines: seq<string>)
  {
    forall i | 0 <= i < |lines| :: IsWritable(lines[i])
  }

  /** What follows a block with indentation `n`: nothing, or a line that is indented less. */
  predicate EndsBlock(rest: seq<string>, n: nat)
  {
    rest == [] || (!IsBlank(rest[0]) && LeadingSpaces(rest[0]).Some? && LeadingSpaces(rest[0]).value < n)
  }

  lemma {:induction false} BlankIsWhitespace(line: string)
    ensures IsBlank(line) <==> AllWhitespace(line)
  {
    var blank := TrimStartSplits(line);
    TrimStartStops(line);
    var text := TrimStart(line);
    if text == "" {
      assert line == blank;
    } else {
      assert line[|blank|] == text[0] && text[0] in line;
      TrimEndFirst(text);
    }
  }

  lemma {:induction false} SpacesAhead(n: nat, line: string)
    ensures LeadingSpaces(line).Some? ==> LeadingSpaces(Spaces(n) + line) == Some(n + LeadingSpaces(line).value)
    ensures (Spaces(n) + line)[n..] == line
  {
    if n == 0 {
      assert Spaces(n) + line == line;
    } else {
      SpacesAhead(n - 1, line);
      assert (Spaces(n) + line)[1..] == Spaces(n - 1) + line;
    }
  }

  lemma IndentedLine(line: string, n: nat)
    requires line != "" && IsWritable(line)
    ensures !IsBlank(Indented(line, n)) && Indented(line, n)[n..] == line && LeadingSpaces(line).Some?
    ensures LeadingSpaces(Indented(line, n)) == Some(n + LeadingSpaces(line).value)
  {
    SpacesAhead(n, line);
    BlankIsWhitespace(line);
    BlankIsWhitespace(Spaces(n) + line);
    var c :| c in line && !IsWhitespace(c);
    assert c in Spaces(n) + line;
  }

  /** The content of a block is the lines that were indented, and it ends after them. */
  lemma {:induction false} ContentBack(front: seq<string>, i: nat, lines: seq<string>, n: nat, rest: seq<string>)
    requires i <= |front| && front[i..] == IndentAll(lines, n) + rest
    requires AllWritable(lines) && EndsBlock(rest, n)
    ensures ContentLines(front, i, n) == Taken(lines, i + |lines|)
    decreases |lines|
  {
    hide IsBlank; hide LeadingSpaces; hide IsWritable;
    if lines == [] {
      assert front[i..] == rest;
      assert rest != [] ==> front[i] == rest[0];
    } else {
      var line := lines[0];
      assert front[i] == front[i..][0] == Indented(line, n);
      assert front[i + 1..] == front[i..][1..] == IndentAll(lines[1..], n) + rest;
      assert IsWritable(line);
      ContentBack(front, i + 1, lines[1..], n, rest);
      assert lines == [line] + lines[1..];
      if line == "" {
        EmptyIsBlank();
      } else {
        IndentedLine(line, n);
      }
    }
  }

  lemma EmptyIsBlank()
    ensures IsBlank("")
  {
  }

  /** Whatever the style and the chomping, a block with its indentation given returns what those make of its lines. */
  lemma ExplicitBlock(
    front: seq<string>, i: nat, lines: seq<string>, n: nat, rest: seq<string>, style: BlockStyle, chomping: Chomping)
    requires i <= |front| && front[i..] == IndentAll(lines, n) + rest && n > 0
    requires AllWritable(lines) && EndsBlock(rest, n)
    ensures BlockScalar(front, i, style, chomping, Some(n)) == Read(BlockText(lines, style, chomping), i + |lines|)
  {
    ContentBack(front, i, lines, n, rest);
  }

  /** The position of the first line that is not empty. */
  function FirstText(lines: seq<string>): (j: nat)
    ensures j <= |lines| && (forall i | 0 <= i < j :: lines[i] == "") && (j < |lines| ==> lines[j] != "")
  {
    if lines == [] || lines[0] != "" then 0 else 1 + FirstText(lines[1..])
  }

  /** A block that starts with blank lines. */
  lemma {:induction false} ContentStarts(front: seq<string>, i: nat, k: nat, base: nat)
    requires i <= k < |front| && !IsBlank(front[k])
    requires forall j | i <= j < k :: IsBlank(front[j])
    requires LeadingSpaces(front[k]).Some? && LeadingSpaces(front[k]).value >= base
    ensures var r := ContentLines(front, i, base);
      r.Taken? ==> |r.content| > k - i && r.content[k - i] == front[k][base..] && forall j | 0 <= j < k - i ::
        r.content[j] == ""
    decreases k - i
  {
    hide IsBlank; hide LeadingSpaces;
    if i < k {
      ContentStarts(front, i + 1, k, base);
    }
  }

  /** The first character of a joined text that is not a separator. */
  lemma {:induction false} JoinStarts(lines: seq<string>, j: nat)
    requires j < |lines| && lines[j] != "" && forall i | 0 <= i < j :: lines[i] == ""
    ensures |Join(lines, '\n')| > j && Join(lines, '\n')[j] == lines[j][0]
  {
    if j > 0 {
      JoinStarts(lines[1..], j - 1);
      assert lines[0] + ['\n'] == "\n";
    }
  }

  lemma {:induction false} AfterSpaces(line: string)
    requires !IsBlank(line) && LeadingSpaces(line).Some?
    ensures var k := LeadingSpaces(line).value;
      && k < |line| && line[k] != ' ' && (k > 0 ==> line[0] == ' ')
  {
    BlankIsWhitespace(line);
    if line[0] == ' ' {
      BlankIsWhitespace(line[1..]);
      AfterSpaces(line[1..]);
    }
  }

  /** The indentation that is found for a block is that of its first line with text. */
  lemma FoundBase(front: seq<string>, i: nat, lines: seq<string>, n: nat, rest: seq<string>)
    requires i <= |front| && front[i..] == IndentAll(lines, n) + rest
    requires AllWritable(lines) && FirstText(lines) < |lines|
    ensures var k := i + FirstText(lines);
      && k < |front| && !IsBlank(front[k]) && (forall j | i <= j < k :: IsBlank(front[j]))
      && front[k] == Indented(lines[FirstText(lines)], n)
      && LeadingSpaces(front[k]) == Some(n + LeadingSpaces(lines[FirstText(lines)]).value)
      && BaseOf(front, i, None) == Indent(n + LeadingSpaces(lines[FirstText(lines)]).value)
  {
    hide IsBlank; hide LeadingSpaces; hide IsWritable; hide IndentAll; hide NextLine;
    FirstTextAt(front, i, lines, n, rest);
    assert IsWritable(lines[FirstText(lines)]);
    IndentedLine(lines[FirstText(lines)], n);
  }

  lemma {:induction false} FirstTextAt(front: seq<string>, i: nat, lines: seq<string>, n: nat, rest: seq<string>)
    requires i <= |front| && front[i..] == IndentAll(lines, n) + rest
    requires AllWritable(lines) && FirstText(lines) < |lines|
    ensures NextLine(front, i) == i + FirstText(lines) < |front|
    ensures front[i + FirstText(lines)] == Indented(lines[FirstText(lines)], n)
    decreases |lines|
  {
    hide IsBlank; hide LeadingSpaces; hide IsWritable; hide Indented;
    assert front[i] == front[i..][0] == Indented(lines[0], n);
    assert IsWritable(lines[0]);
    if lines[0] == "" {
      assert front[i + 1..] == front[i..][1..] == IndentAll(lines[1..], n) + rest;
      EmptyIndented(n);
      FirstTextAt(front, i + 1, lines[1..], n, rest);
    } else {
      IndentedLine(lines[0], n);
    }
  }

  lemma EmptyIndented(n: nat)
    ensures IsBlank(Indented("", n))
  {
  }

  /**
   * A literal block that is kept whole and whose indentation is found from
   * its lines returns them, joined by line feeds and with a final one,
   * exactly when its first line with text does not itself start with a space.
   */
  lemma FoundBlock(front: seq<string>, i: nat, lines: seq<string>, n: nat, rest: seq<string>)
    requires i <= |front| && front[i..] == IndentAll(lines, n) + rest && n > 0
    requires AllWritable(lines) && EndsBlock(rest, n) && FirstText(lines) < |lines|
    ensures BlockScalar(front, i, Literal, Keep, None) == Read(Join(lines, '\n') + "\n", i + |lines|)
      <==> LeadingSpaces(lines[FirstText(lines)]) == Some(0)
  {
    hide IsBlank; hide LeadingSpaces; hide ContentLines;
    var first := FirstText(lines);
    FoundBase(front, i, lines, n, rest);
    assert IsWritable(lines[first]);
    if LeadingSpaces(lines[first]) == Some(0) {
      ContentBack(front, i, lines, n, rest);
    } else {
      DeeperBlock(front, i, lines, n, rest);
    }
  }

  lemma DeeperBlock(front: seq<string>, i: nat, lines: seq<string>, n: nat, rest: seq<string>)
    requires i <= |front| && front[i..] == IndentAll(lines, n) + rest && n > 0
    requires AllWritable(lines) && FirstText(lines) < |lines|
    requires LeadingSpaces(lines[FirstText(lines)]) != Some(0)
    ensures BlockScalar(front, i, Literal, Keep, None) != Read(Join(lines, '\n') + "\n", i + |lines|)
  {
    hide IsBlank; hide LeadingSpaces; hide ContentLines; hide Join; hide IndentAll; hide Indented;
    hide NextLine; hide BaseOf;
    var first := FirstText(lines);
    var line := lines[first];
    FoundBase(front, i, lines, n, rest);
    assert IsWritable(line);
    AfterSpaces(line);
    var extra := LeadingSpaces(line).value;
    ContentStarts(front, i, i + first, n + extra);
    var r := ContentLines(front, i, n + extra);
    if r.Taken? {
      DropInside(n, line, extra);
      StartsDiffer(r.content, lines, first);
    }
  }

  lemma StartsDiffer(a: seq<string>, b: seq<string>, j: nat)
    requires j < |a| && j < |b| && (forall i | 0 <= i < j :: a[i] == "") && (forall i | 0 <= i < j :: b[i] == "")
    requires a[j] != "" && b[j] != "" && a[j][0] != b[j][0]
    ensures Join(a, '\n') + "\n" != Join(b, '\n') + "\n"
  {
    JoinStarts(a, j);
    JoinStarts(b, j);
    assert (Join(a, '\n') + "\n")[j] != (Join(b, '\n') + "\n")[j];
  }

  lemma DropInside(n: nat, line: string, extra: nat)
    requires line != "" && extra < |line|
    ensures |Indented(line, n)| == n + |line|
    ensures Indented(line, n)[n + extra..] != "" && Indented(line, n)[n + extra..][0] == line[extra]
  {
    SpacesAhead(n, line);
    assert Indented(line, n) == Spaces(n) + line;
  }

  // ---- folding ----

  /** The lines grouped into paragraphs, cut at every empty line. */
  function Paragraphs(lines: seq<string>): (ps: seq<seq<string>>)
    ensures ps != []
  {
    if lines == [] then [[]]
    else
      var rest := Paragraphs(lines[1..]);
      if lines[0] == "" then [[]] + rest else [[lines[0]] + rest[0]] + rest[1..]
  }

  /** Every paragraph as one line. */
  function OneLineEach(ps: seq<seq<string>>): (texts: seq<string>)
    ensures |texts| == |ps|
  {
    if ps == [] then [] else [Join(ps[0], ' ')] + OneLineEach(ps[1..])
  }

  lemma JoinExtends(extra: string, first: string, rest: seq<string>, separator: char)
    ensures Join([extra + first] + rest, separator) == extra + Join([first] + rest, separator)
  {
    assert ([extra + first] + rest)[1..] == rest && ([first] + rest)[1..] == rest;
    if rest != [] {
      ConcatAssociates(extra, first, [separator]);
      ConcatAssociates(extra, first + [separator], Join(rest, separator));
    }
  }

  lemma GapBefore(lines: seq<string>)
    ensures FoldedText(lines, false) == (if Paragraphs(lines)[0] != [] then " " else "") + FoldedText(lines, true)
  {
    if lines != [] {
      if lines[0] == "" {
        assert "" + FoldedText(lines, true) == FoldedText(lines, true);
      } else {
        var rest := FoldedText(lines[1..], false);
        assert "" + lines[0] + rest == lines[0] + rest;
        ConcatAssociates(" ", lines[0], rest);
      }
    }
  }

  /** Folding is joining the lines of each paragraph by spaces and the paragraphs by line feeds. */
  lemma {:induction false} FoldingIsParagraphs(lines: seq<string>)
    ensures FoldedText(lines, true) == Join(OneLineEach(Paragraphs(lines)), '\n')
  {
    if lines != [] {
      var rest := lines[1..];
      var ps := Paragraphs(rest);
      var texts := OneLineEach(ps);
      assert texts == [Join(ps[0], ' ')] + texts[1..];
      FoldingIsParagraphs(rest);
      if lines[0] == "" {
        assert ([[]] + ps)[1..] == ps;
        assert ([""] + texts)[1..] == texts;
        assert "" + ['\n'] + Join(texts, '\n') == "\n" + Join(texts, '\n');
      } else {
        FoldedParagraph(lines[0], rest);
      }
    }
  }

  lemma FoldedParagraph(line: string, rest: seq<string>)
    requires line != "" && FoldedText(rest, true) == Join(OneLineEach(Paragraphs(rest)), '\n')
    ensures FoldedText([line] + rest, true) == Join(OneLineEach(Paragraphs([line] + rest)), '\n')
  {
    var ps := Paragraphs(rest);
    var gap := if ps[0] != [] then " " else "";
    var texts := OneLineEach(ps[1..]);
    assert ([line] + rest)[1..] == rest;
    GapBefore(rest);
    ConcatAssociates(line, gap, FoldedText(rest, true));
    assert "" + line == line;
    assert ([[line] + ps[0]] + ps[1..])[1..] == ps[1..];
    assert Join([line] + ps[0], ' ') == line + gap + Join(ps[0], ' ') by {
      assert ([line] + ps[0])[1..] == ps[0];
      assert ps[0] == [] ==> line + gap + Join(ps[0], ' ') == line;
    }
    JoinExtends(line + gap, Join(ps[0], ' '), texts, '\n');
  }

  // ---- chomping ----

  /**
   * Of a block whose last line has text, stripping leaves the joined lines, and
   * clipping and keeping leave one line feed after them.
   */
  lemma ChompingDiffers(lines: seq<string>)
    requires lines != [] && lines[|lines| - 1] != "" && '\n' !in lines[|lines| - 1]
    ensures BlockText(lines, Literal, Strip) == Join(lines, '\n')
    ensures BlockText(lines, Literal, Clip) == BlockText(lines, Literal, Keep) == Join(lines, '\n') + "\n"
  {
    var text := Join(lines, '\n');
    JoinEnds(lines);
    assert (text + "\n")[..|text|] == text;
    assert Chomped(text) == text;
    assert Chomped(text + "\n") == Chomped(text);
  }

  lemma {:induction false} JoinEnds(lines: seq<string>)
    requires lines != [] && lines[|lines| - 1] != ""
    ensures var text := Join(lines, '\n');
      text != "" && text[|text| - 1] == lines[|lines| - 1][|lines[|lines| - 1]| - 1]
  {
    if |lines| > 1 {
      JoinEnds(lines[1..]);
    }
  }
}
