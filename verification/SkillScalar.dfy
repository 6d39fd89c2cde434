/** The scalars of a skill document's front matter: plain, single-quoted and double-quoted. */
module SkillScalar {
  import opened Common
  import opened Text

  datatype ScalarError =
    | UnterminatedDouble | UnterminatedSingle | DanglingEscape
    | IncompleteUnicode | InvalidUnicodeDigits | InvalidUnicodeValue

  datatype Scalar = Good(text: string) | Bad(error: ScalarError)

  // ---- comments ----

  /** The text up to a `#` that follows whitespace, or that comes first when `open`. */
  function Uncommented(raw: string, open: bool): string
  {
    if raw == "" || (raw[0] == '#' && open) then "" else [raw[0]] + Uncommented(raw[1..], IsWhitespace(raw[0]))
  }

  predicate StartsComment(raw: string, i: nat)
    requires i < |raw|
  {
    raw[i] == '#' && (i == 0 || IsWhitespace(raw[i - 1]))
  }

  /** What is read when the first `i` characters are not in a comment. */
  function ReadFrom(raw: string, i: nat): string
    requires i <= |raw|
  {
    raw[..i] + Uncommented(raw[i..], i == 0 || IsWhitespace(raw[i - 1]))
  }

  lemma ReadOn(raw: string, i: nat)
    requires i < |raw|
    ensures ReadFrom(raw, i) == if StartsComment(raw, i) then raw[..i] else ReadFrom(raw, i + 1)
  {
    hide IsWhitespace;
    var rest := Uncommented(raw[i + 1..], IsWhitespace(raw[i]));
    assert raw[i..][1..] == raw[i + 1..];
    if !StartsComment(raw, i) {
      ConcatAssociates(raw[..i], [raw[i]], rest);
      assert raw[..i + 1] == raw[..i] + [raw[i]];
    }
  }

  lemma ReadEnds(raw: string)
    ensures ReadFrom(raw, 0) == Uncommented(raw, true) && ReadFrom(raw, |raw|) == raw
  {
    assert raw[0..] == raw && raw[|raw|..] == "" && raw[..|raw|] == raw;
  }

  method StripComment(raw: string) returns (text: string)
    ensures text == Uncommented(raw, true)
  {
    hide ReadFrom; hide Uncommented;
    ReadEnds(raw);
    var i := 0;
    while i < |raw|
      invariant 0 <= i <= |raw| && Uncommented(raw, true) == ReadFrom(raw, i)
    {
      ReadOn(raw, i);
      if raw[i] == '#' && (i == 0 || IsWhitespace(raw[i - 1])) {
        return raw[..i];
      }
      i := i + 1;
    }
    return raw;
  }

  // ---- escapes ----

  function HexDigit(c: char): Option<nat>
  {
    if '0' <= c <= '9' then Some(c as nat - '0' as nat)
    else if 'a' <= c <= 'f' then Some(c as nat - 'a' as nat + 10)
    else if 'A' <= c <= 'F' then Some(c as nat - 'A' as nat + 10)
    else None
  }

  /** The value of hexadecimal digits appended to the value so far. */
  function HexValue(digits: string, soFar: nat): Option<nat>
  {
    if digits == "" then Some(soFar)
    else if HexDigit(digits[0]).None? then None
    else HexValue(digits[1..], soFar * 16 + HexDigit(digits[0]).value)
  }

  /** Four characters as a number; the number reader of the source accepts a leading plus sign. */
  function UnicodeCode(digits: string): Option<nat>
  {
    if digits != "" && digits[0] == '+' then (if |digits| > 1 then HexValue(digits[1..], 0) else None)
    else if digits == "" then None
    else HexValue(digits, 0)
  }

  predicate IsScalarValue(code: nat)
  {
    code < 0xD800 || 0xE000 <= code < 0x110000
  }

  /** The character that a one-letter escape stands for. */
  function ShortEscape(c: char): Option<char>
  {
    match c
    case 'n' => Some('\n')
    case 't' => Some('\t')
    case 'r' => Some('\r')
    case '"' => Some('"')
    case '\\' => Some('\\')
    case '0' => Some('\0')
    case _ => None
  }

  function Before(text: string, s: Scalar): Scalar
  {
    if s.Good? then Good(text + s.text) else s
  }

  function Unescaped(inner: string): Scalar
    decreases |inner|
  {
    if inner == "" then Good("")
    else if inner[0] != '\\' then Before([inner[0]], Unescaped(inner[1..]))
    else if |inner| == 1 then Bad(DanglingEscape)
    else if ShortEscape(inner[1]).Some? then Before([ShortEscape(inner[1]).value], Unescaped(inner[2..]))
    else if inner[1] != 'u' then Before(inner[..2], Unescaped(inner[2..]))
    else if |inner| < 6 then Bad(IncompleteUnicode)
    else
      var code := UnicodeCode(inner[2..6]);
      if code.None? then Bad(InvalidUnicodeDigits)
      else if !IsScalarValue(code.value) then Bad(InvalidUnicodeValue)
      else Before([code.value as char], Unescaped(inner[6..]))
  }

  lemma BeforeAssociates(a: string, b: string, s: Scalar)
    ensures Before(a, Before(b, s)) == Before(a + b, s)
  {
  }

  method UnescapeDoubleQuoted(inner: string) returns (s: Scalar)
    ensures s == Unescaped(inner)
  {
    var result := "";
    var i := 0;
    while i < |inner|
      invariant 0 <= i <= |inner|
      invariant Unescaped(inner) == Before(result, Unescaped(inner[i..]))
      decreases |inner| - i
    {
      ghost var rest := inner[i..];
      var taken, added := 1, [inner[i]];
      if inner[i] == '\\' {
        if i + 1 == |inner| {
          return Bad(DanglingEscape);
        }
        var escaped := inner[i + 1];
        taken := 2;
        if ShortEscape(escaped).Some? {
          added := [ShortEscape(escaped).value];
        } else if escaped != 'u' {
          added := ['\\', escaped];
        } else {
          if i + 6 > |inner| {
            return Bad(IncompleteUnicode);
          }
          SliceOfDrop(inner, i, 2, 6);
          var code := UnicodeCode(inner[i + 2..i + 6]);
          if code.None? {
            return Bad(InvalidUnicodeDigits);
          }
          if !IsScalarValue(code.value) {
            return Bad(InvalidUnicodeValue);
          }
          taken, added := 6, [code.value as char];
        }
      }
      assert rest[taken..] == inner[i + taken..];
      assert taken == 2 ==> rest[..2] == ['\\', inner[i + 1]];
      assert Unescaped(rest) == Before(added, Unescaped(inner[i + taken..]));
      BeforeAssociates(result, added, Unescaped(inner[i + taken..]));
      result := result + added;
      i := i + taken;
    }
    assert inner[i..] == "";
    return Good(result);
  }

  // ---- scalars ----

  /** Every pair of single quotes, from the left, as one. */
  function Undoubled(text: string): string
  {
    if text == "" then ""
    else if |text| >= 2 && text[0] == '\'' && text[1] == '\'' then "'" + Undoubled(text[2..])
    else [text[0]] + Undoubled(text[1..])
  }

  function ReadScalar(raw: string): Scalar
  {
    ReadValue(Trim(Uncommented(raw, true)))
  }

  function ReadValue(value: string): Scalar
  {
    if value == "" then Good("")
    else if value[0] == '"' then
      if |value| < 2 || value[|value| - 1] != '"' then Bad(UnterminatedDouble) else Unescaped(value[1..|value| - 1])
    else if value[0] == '\'' then
      if |value| < 2 || value[|value| - 1] != '\'' then Bad(UnterminatedSingle)
        else Good(Undoubled(value[1..|value| - 1]))
    else Good(value)
  }

  method ParseScalar(raw: string) returns (s: Scalar)
    ensures s == ReadScalar(raw)
  {
    var text := StripComment(raw);
    var value := Trim(text);
    if value == "" {
      return Good("");
    }
    if value[0] == '"' {
      if |value| < 2 || value[|value| - 1] != '"' {
        return Bad(UnterminatedDouble);
      }
      s := UnescapeDoubleQuoted(value[1..|value| - 1]);
      return;
    }
    if value[0] == '\'' {
      if |value| < 2 || value[|value| - 1] != '\'' {
        return Bad(UnterminatedSingle);
      }
      return Good(Undoubled(value[1..|value| - 1]));
    }
    return Good(value);
  }
}
