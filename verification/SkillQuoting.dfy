/**
 * Quoted scalars read back: for every string and every style of quoting, exactly
 * when the reader returns the string.
 */
module SkillQuoting {
  import opened Common
  import opened Text
  import opened SkillScalar

  /**
   * How a string is quoted. Between double quotes the backslash and the quote
   * are escaped, the control characters in `short` by their letter, and the
   * number sign when `hash`. Between single quotes the quote is doubled.
   */
  datatype Style = Double(short: set<char>, hash: bool) | Single

  function Mark(style: Style): char
  {
    if style.Double? then '"' else '\''
  }

  /** The letter of a control character's short escape. */
  function Letter(c: char): Option<char>
  {
    match c
    case '\n' => Some('n')
    case '\t' => Some('t')
    case '\r' => Some('r')
    case '\0' => Some('0')
    case _ => None
  }

  function WriteChar(style: Style, c: char): (w: string)
    ensures w != ""
  {
    if style.Single? then (if c == '\'' then "''" else [c])
    else if c == '\\' || c == '"' then ['\\', c]
    else if c == '#' && style.hash then "\\u0023"
    else if c in style.short && Letter(c).Some? then ['\\', Letter(c).value]
    else [c]
  }

  function WriteText(style: Style, s: string): string
  {
    if s == "" then "" else WriteChar(style, s[0]) + WriteText(style, s[1..])
  }

  function Quoted(style: Style, s: string): string
  {
    [Mark(style)] + (WriteText(style, s) + [Mark(style)])
  }

  predicate IsRaw(style: Style, c: char)
  {
    WriteChar(style, c) == [c]
  }

  predicate IsRawBlank(style: Style, c: char)
  {
    IsWhitespace(c) && IsRaw(style, c)
  }

  /** No number sign is written directly after written whitespace. */
  predicate IsClean(style: Style, s: string)
  {
    forall i | 0 <= i < |s| - 1 :: IsCleanAt(style, s, i)
  }

  predicate IsCleanAt(style: Style, s: string, i: nat)
    requires i + 1 < |s|
  {
    IsRawBlank(style, s[i]) && IsRaw(style, s[i + 1]) ==> s[i + 1] != '#'
  }

  /** The same, following the reader: `open` says whether a number sign here would start a comment. */
  predicate StaysClean(style: Style, s: string, open: bool)
  {
    s == "" || (!(open && s[0] == '#' && IsRaw(style, s[0])) && StaysClean(style, s[1..], IsRawBlank(style, s[0])))
  }

  lemma CleanTail(style: Style, s: string)
    requires s != ""
    ensures IsClean(style, s) <==> IsClean(style, s[1..]) && (|s| > 1 ==> IsCleanAt(style, s, 0))
  {
    hide IsRaw; hide IsRawBlank;
    assert forall i | 0 <= i < |s| - 2 :: IsCleanAt(style, s[1..], i) == IsCleanAt(style, s, i + 1);
    if IsClean(style, s[1..]) && (|s| > 1 ==> IsCleanAt(style, s, 0)) {
      forall i | 0 <= i < |s| - 1
        ensures IsCleanAt(style, s, i)
      {
        if i > 0 {
          assert IsCleanAt(style, s[1..], i - 1);
        }
      }
    }
  }

  lemma {:induction false} CleanStays(style: Style, s: string, open: bool)
    ensures StaysClean(style, s, open) <==> IsClean(style, s) && !(open && s != "" && s[0] == '#' && IsRaw(style, s[0]))
  {
    hide IsRaw; hide IsRawBlank; hide IsClean;
    if s == "" {
      NothingIsClean(style);
    } else {
      CleanStays(style, s[1..], IsRawBlank(style, s[0]));
      CleanTail(style, s);
    }
  }

  lemma NothingIsClean(style: Style)
    ensures IsClean(style, "")
  {
  }

  // ---- comments and quoting ----

  /** What a character is written as, when it is not itself, has no number sign and does not end in whitespace. */
  lemma WrittenChar(style: Style, c: char)
    ensures var w := WriteChar(style, c);
      !IsRaw(style, c) ==> '#' !in w && !IsWhitespace(w[|w| - 1])
  {
  }

  lemma {:induction false} UncommentedPasses(a: string, b: string, open: bool)
    requires a != "" && '#' !in a
    ensures Uncommented(a + b, open) == a + Uncommented(b, IsWhitespace(a[|a| - 1]))
  {
    assert (a + b)[1..] == a[1..] + b;
    if |a| == 1 {
      assert a[1..] + b == b;
    } else {
      UncommentedPasses(a[1..], b, IsWhitespace(a[0]));
    }
  }

  lemma UncommentedChar(style: Style, c: char, rest: string, open: bool)
    requires !(open && c == '#' && IsRaw(style, c))
    ensures Uncommented(WriteChar(style, c) + rest, open) ==
            WriteChar(style, c) + Uncommented(rest, IsRawBlank(style, c))
  {
    if IsRaw(style, c) {
      assert ([c] + rest)[1..] == rest;
    } else {
      WrittenChar(style, c);
      UncommentedPasses(WriteChar(style, c), rest, open);
    }
  }

  /** How many characters are read before a comment starts. */
  function CommentAt(style: Style, s: string, open: bool): (k: nat)
    requires !StaysClean(style, s, open)
    ensures k < |s|
  {
    if open && s[0] == '#' && IsRaw(style, s[0]) then 0
    else 1 + CommentAt(style, s[1..], IsRawBlank(style, s[0]))
  }

  lemma {:induction false} CleanSurvives(style: Style, s: string, open: bool)
    requires StaysClean(style, s, open)
    ensures var text := WriteText(style, s) + [Mark(style)]; Uncommented(text, open) == text
  {
    hide IsRaw; hide IsRawBlank; hide WriteChar;
    if s == "" {
      assert [Mark(style)][1..] == "";
    } else {
      var rest := WriteText(style, s[1..]) + [Mark(style)];
      ConcatAssociates(WriteChar(style, s[0]), WriteText(style, s[1..]), [Mark(style)]);
      UncommentedChar(style, s[0], rest, open);
      CleanSurvives(style, s[1..], IsRawBlank(style, s[0]));
    }
  }

  lemma {:induction false} UncleanIsCut(style: Style, s: string, open: bool)
    requires !StaysClean(style, s, open)
    ensures var k := CommentAt(style, s, open);
      && k < |s| && (k == 0 ==> open) && (k > 0 ==> IsRawBlank(style, s[k - 1]))
      && Uncommented(WriteText(style, s) + [Mark(style)], open) == WriteText(style, s[..k])
  {
    hide IsRawBlank; hide WriteChar;
    var k := CommentAt(style, s, open);
    ConcatAssociates(WriteChar(style, s[0]), WriteText(style, s[1..]), [Mark(style)]);
    if k > 0 {
      UncleanIsCut(style, s[1..], IsRawBlank(style, s[0]));
      UncommentedChar(style, s[0], WriteText(style, s[1..]) + [Mark(style)], open);
      assert s[..k][1..] == s[1..][..k - 1];
    }
  }

  // ---- trimming ----

  lemma {:induction false} WriteSnoc(style: Style, s: string, c: char)
    ensures WriteText(style, s + [c]) == WriteText(style, s) + WriteChar(style, c)
  {
    hide WriteChar;
    if s == "" {
      assert s + [c] == [c] && [c][1..] == "";
    } else {
      assert (s + [c])[1..] == s[1..] + [c];
      WriteSnoc(style, s[1..], c);
      ConcatAssociates(WriteChar(style, s[0]), WriteText(style, s[1..]), WriteChar(style, c));
    }
  }

  /** The string without the whitespace written at its end. */
  function WithoutBlankEnd(style: Style, s: string): string
  {
    if s != "" && IsRawBlank(style, s[|s| - 1]) then WithoutBlankEnd(style, s[..|s| - 1]) else s
  }

  lemma {:induction false} TrimEndWritten(style: Style, s: string)
    ensures TrimEnd([Mark(style)] + WriteText(style, s)) == [Mark(style)] + WriteText(style, WithoutBlankEnd(style, s))
    ensures |WithoutBlankEnd(style, s)| <= |s|
    ensures s != "" && IsRawBlank(style, s[|s| - 1]) ==> |WithoutBlankEnd(style, s)| < |s|
  {
    hide WriteChar; hide Mark; hide IsRaw; hide IsWhitespace; hide TrimEnd; hide WriteText;
    if s == "" {
      MarkAlone(style);
    } else {
      var front, last := s[..|s| - 1], s[|s| - 1];
      assert s == front + [last];
      WriteSnoc(style, front, last);
      ConcatAssociates([Mark(style)], WriteText(style, front), WriteChar(style, last));
      TrimEndSnoc([Mark(style)] + WriteText(style, front), WriteChar(style, last));
      LastWritten(style, last);
      if IsRawBlank(style, last) {
        TrimEndWritten(style, front);
      }
    }
  }

  lemma MarkAlone(style: Style)
    ensures TrimEnd([Mark(style)] + WriteText(style, "")) == [Mark(style)] + WriteText(style, "")
  {
    TrimEndSnoc("", [Mark(style)] + WriteText(style, ""));
    assert "" + ([Mark(style)] + WriteText(style, "")) == [Mark(style)] + WriteText(style, "");
  }

  lemma LastWritten(style: Style, c: char)
    ensures var w := WriteChar(style, c);
      if IsRawBlank(style, c) then w == [c] && IsWhitespace(c) else !IsWhitespace(w[|w| - 1])
  {
    if !IsRaw(style, c) {
      WrittenChar(style, c);
    }
  }

  // ---- reading back ----

  lemma UnescapedChar(style: Style, c: char, rest: string)
    requires style.Double?
    ensures Unescaped(WriteChar(style, c) + rest) == Before([c], Unescaped(rest))
  {
    hide UnicodeCode; hide IsScalarValue;
    var w := WriteChar(style, c);
    if c == '#' && style.hash {
      UnescapedHash(rest);
    } else if IsRaw(style, c) {
      assert ([c] + rest)[1..] == rest;
    } else {
      assert w == [w[0], w[1]] && ShortEscape(w[1]) == Some(c);
      assert (w + rest)[2..] == rest;
    }
  }

  lemma UnescapedHash(rest: string)
    ensures Unescaped("\\u0023" + rest) == Before("#", Unescaped(rest))
  {
    hide UnicodeCode;
    var w := "\\u0023";
    var text := w + rest;
    assert text[6..] == rest;
    HashCode();
    assert text[2..6] == "0023";
    assert text[0] == '\\' && text[1] == 'u';
  }

  lemma HashCode()
    ensures UnicodeCode("0023") == Some(0x23) && 0x23 as char == '#'
  {
    assert "0023"[1..] == "023" && "023"[1..] == "23" && "23"[1..] == "3" && "3"[1..] == "";
    assert HexValue("3", 2) == Some(0x23);
    assert HexValue("23", 0) == Some(0x23);
  }

  lemma {:induction false} UnescapedText(style: Style, s: string, rest: string)
    requires style.Double?
    ensures Unescaped(WriteText(style, s) + rest) == Before(s, Unescaped(rest))
  {
    hide WriteChar; hide Unescaped;
    if s == "" {
      assert WriteText(style, s) + rest == rest;
    } else {
      ConcatAssociates(WriteChar(style, s[0]), WriteText(style, s[1..]), rest);
      UnescapedChar(style, s[0], WriteText(style, s[1..]) + rest);
      UnescapedText(style, s[1..], rest);
      BeforeAssociates([s[0]], s[1..], Unescaped(rest));
      assert [s[0]] + s[1..] == s;
    }
  }

  /** Doubled quotes read back, also in front of one more quote that has lost its partner. */
  lemma {:induction false} UndoubledText(s: string, rest: string)
    requires rest == "" || rest == "'"
    ensures Undoubled(WriteText(Single, s) + rest) == s + rest
  {
    hide WriteChar;
    if s == "" {
      assert WriteText(Single, s) + rest == rest;
      assert rest != "" ==> rest[1..] == "";
    } else {
      hide Undoubled;
      ConcatAssociates(WriteChar(Single, s[0]), WriteText(Single, s[1..]), rest);
      UndoubledChar(s[0], WriteText(Single, s[1..]) + rest);
      UndoubledText(s[1..], rest);
      ConcatAssociates([s[0]], s[1..], rest);
      assert [s[0]] + s[1..] == s;
    }
  }

  lemma UndoubledChar(c: char, rest: string)
    ensures Undoubled(WriteChar(Single, c) + rest) == [c] + Undoubled(rest)
  {
    var w := WriteChar(Single, c);
    assert (w + rest)[|w|..] == rest;
  }

  /** A value between its quotes is decoded back. */
  lemma WholeValue(style: Style, s: string)
    ensures ReadValue(Quoted(style, s)) == Good(s)
  {
    var text := WriteText(style, s);
    var value := Quoted(style, s);
    assert value[1..|value| - 1] == text && value[0] == value[|value| - 1] == Mark(style);
    assert text + "" == text;
    if style.Double? {
      UnescapedText(style, s, "");
    } else {
      assert s + "" == s;
      UndoubledText(s, "");
    }
  }

  /** A value that was cut off is an error, or ends in a single quote and is shorter. */
  lemma CutValue(style: Style, s: string)
    ensures var r := ReadValue([Mark(style)] + WriteText(style, s));
      r.Bad? || (style.Single? && s != "" && s[|s| - 1] == '\'' && r == Good(s))
  {
    hide WriteText; hide WriteChar; hide Unescaped; hide Undoubled;
    if s == "" {
      NothingWritten(style);
    } else {
      var front, last := s[..|s| - 1], s[|s| - 1];
      assert s == front + [last];
      WriteSnoc(style, front, last);
      var text, w := WriteText(style, front), WriteChar(style, last);
      var value := [Mark(style)] + (text + w);
      assert value[|value| - 1] == w[|w| - 1];
      if last != Mark(style) {
        EndsOtherwise(style, last);
      } else {
        MarkWritten(style);
        assert value[1..|value| - 1] == text + w[..1];
        if style.Double? {
          UnescapedText(style, front, "\\");
          LoneEscape();
        } else {
          UndoubledText(front, "'");
        }
      }
    }
  }

  lemma NothingWritten(style: Style)
    ensures WriteText(style, "") == ""
  {
  }

  lemma MarkWritten(style: Style)
    ensures var w := WriteChar(style, Mark(style)); |w| == 2 && w[..1] == if style.Double? then "\\" else "'"
  {
  }

  lemma LoneEscape()
    ensures Unescaped("\\") == Bad(DanglingEscape)
  {
  }

  lemma EndsOtherwise(style: Style, c: char)
    requires c != Mark(style)
    ensures var w := WriteChar(style, c); w[|w| - 1] != Mark(style)
  {
  }

  lemma UncommentedQuoted(style: Style, s: string)
    ensures IsClean(style, s) ==> Uncommented(Quoted(style, s), true) == Quoted(style, s)
    ensures IsClean(style, s) == StaysClean(style, s, false)
    ensures !IsClean(style, s) ==>
      Uncommented(Quoted(style, s), true) == [Mark(style)] + WriteText(style, s[..CommentAt(style, s, false)])
  {
    var text := WriteText(style, s) + [Mark(style)];
    assert Quoted(style, s)[1..] == text;
    CleanStays(style, s, false);
    if IsClean(style, s) {
      CleanSurvives(style, s, false);
    } else {
      UncleanIsCut(style, s, false);
    }
  }

  lemma TrimQuoted(style: Style, s: string)
    ensures Trim(Quoted(style, s)) == Quoted(style, s)
  {
    var value := Quoted(style, s);
    assert value[0] == Mark(style) && value[|value| - 1] == Mark(style);
  }

  /**
   * A quoted string is returned unchanged exactly when no number sign is
   * written directly after whitespace; with the number sign escaped that is
   * always. Otherwise a double-quoted string is rejected, and a single-quoted
   * one is rejected or cut down to a shorter one.
   */
  lemma QuotedRoundTrip(style: Style, s: string)
    ensures ReadScalar(Quoted(style, s)) == Good(s) <==> IsClean(style, s)
    ensures style.Double? && style.hash ==> IsClean(style, s)
    ensures !IsClean(style, s) ==> var r := ReadScalar(Quoted(style, s));
      r.Bad? || (style.Single? && |r.text| < |s| && r.text <= s)
  {
    hide Uncommented; hide WriteText; hide Trim; hide ReadValue;
    UncommentedQuoted(style, s);
    if IsClean(style, s) {
      TrimQuoted(style, s);
      WholeValue(style, s);
    } else {
      UncleanIsCut(style, s, false);
      var kept := s[..CommentAt(style, s, false)];
      TrimCut(style, kept);
      PrefixKept(style, kept);
      CutValue(style, WithoutBlankEnd(style, kept));
    }
  }

  lemma TrimCut(style: Style, s: string)
    ensures Trim([Mark(style)] + WriteText(style, s)) == [Mark(style)] + WriteText(style, WithoutBlankEnd(style, s))
  {
    TrimEndWritten(style, s);
  }

  lemma {:induction false} PrefixKept(style: Style, s: string)
    ensures WithoutBlankEnd(style, s) <= s
  {
    if s != "" && IsRawBlank(style, s[|s| - 1]) {
      PrefixKept(style, s[..|s| - 1]);
    }
  }

  // ---- plain scalars ----

  /** Reading never makes a text longer. */
  lemma {:induction false} UnescapedShrinks(inner: string)
    ensures Unescaped(inner).Good? ==> |Unescaped(inner).text| <= |inner|
    decreases |inner|
  {
    if inner != "" {
      if inner[0] != '\\' {
        UnescapedShrinks(inner[1..]);
      } else if |inner| > 1 {
        UnescapedShrinks(inner[2..]);
        if inner[1] == 'u' && |inner| >= 6 {
          UnescapedShrinks(inner[6..]);
        }
      }
    }
  }

  lemma {:induction false} UndoubledShrinks(text: string)
    ensures |Undoubled(text)| <= |text|
  {
    if text != "" {
      UndoubledShrinks(text[1..]);
      if |text| >= 2 {
        UndoubledShrinks(text[2..]);
      }
    }
  }

  lemma {:induction false} UncommentedShrinks(raw: string, open: bool)
    ensures Uncommented(raw, open) <= raw
  {
    if raw != "" {
      UncommentedShrinks(raw[1..], IsWhitespace(raw[0]));
    }
  }

  lemma {:induction false} TrimEndShrinks(text: string)
    ensures |TrimEnd(text)| <= |text|
    ensures |TrimEnd(text)| == |text| ==> TrimEnd(text) == text
  {
    if text != "" && IsWhitespace(text[|text| - 1]) {
      TrimEndShrinks(text[..|text| - 1]);
    }
  }

  lemma {:induction false} TrimStartShrinks(text: string)
    ensures |TrimStart(text)| <= |text|
    ensures |TrimStart(text)| == |text| ==> TrimStart(text) == text
  {
    if text != "" && IsWhitespace(text[0]) {
      TrimStartShrinks(text[1..]);
    }
  }

  lemma ReadValueShrinks(value: string)
    ensures ReadValue(value).Good? ==> |ReadValue(value).text| <= |value|
    ensures ReadValue(value) == Good(value) <==> value == "" || (value[0] != '"' && value[0] != '\'')
  {
    if |value| >= 2 {
      UnescapedShrinks(value[1..|value| - 1]);
      UndoubledShrinks(value[1..|value| - 1]);
    }
  }

  /**
   * A string that is written without quotes is returned unchanged exactly when it
   * is trimmed, has no comment, and does not start with a quote.
   */
  lemma PlainRoundTrip(s: string)
    ensures ReadScalar(s) == Good(s) <==>
            Trim(s) == s && Uncommented(s, true) == s && (s != "" ==> s[0] != '"' && s[0] != '\'')
  {
    hide ReadValue; hide TrimStart; hide TrimEnd; hide Uncommented;
    var text := Uncommented(s, true);
    UncommentedShrinks(s, true);
    TrimStartShrinks(text);
    TrimEndShrinks(TrimStart(text));
    ReadValueShrinks(Trim(text));
    ReadValueShrinks(s);
  }
}
