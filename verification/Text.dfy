/** Trimming and splitting of text, as the standard library of the source's language does it. */
module Text {
  /** The characters with the Unicode White_Space property. */
  predicate IsWhitespace(c: char)
  {
    || '\t' <= c <= '\r' || c == ' ' || c == '\U{85}' || c == '\U{A0}' || c == '\U{1680}'
    || '\U{2000}' <= c <= '\U{200A}' || c == '\U{2028}' || c == '\U{2029}' || c == '\U{202F}'
    || c == '\U{205F}' || c == '\U{3000}'
  }

  predicate AllWhitespace(text: string)
  {
    forall c | c in text :: IsWhitespace(c)
  }

  function TrimStart(text: string): string
  {
    if text != [] && IsWhitespace(text[0]) then TrimStart(text[1..]) else text
  }

  function TrimEnd(text: string): string
  {
    if text != [] && IsWhitespace(text[|text| - 1]) then TrimEnd(text[..|text| - 1]) else text
  }

  function Trim(text: string): string
  {
    TrimEnd(TrimStart(text))
  }

  /** What trimming takes off the front is whitespace. */
  lemma {:induction false} TrimStartSplits(text: string) returns (blank: string)
    ensures text == blank + TrimStart(text) && AllWhitespace(blank)
  {
    if text != [] && IsWhitespace(text[0]) {
      var rest := TrimStartSplits(text[1..]);
      blank := [text[0]] + rest;
    } else {
      blank := [];
    }
  }

  lemma {:induction false} TrimEndDrops(text: string, blank: string)
    requires AllWhitespace(blank) && (text != [] ==> !IsWhitespace(text[|text| - 1]))
    ensures TrimEnd(text + blank) == text
  {
    if blank == [] {
      assert text + blank == text;
    } else {
      var whole := text + blank;
      assert whole[|whole| - 1] == blank[|blank| - 1];
      assert whole[..|whole| - 1] == text + blank[..|blank| - 1];
      TrimEndDrops(text, blank[..|blank| - 1]);
    }
  }

  lemma {:induction false} TrimStartDrops(blank: string, text: string)
    requires AllWhitespace(blank) && (text != [] ==> !IsWhitespace(text[0]))
    ensures TrimStart(blank + text) == text
  {
    if blank == [] {
      assert blank + text == text;
    } else {
      assert (blank + text)[1..] == blank[1..] + text;
      TrimStartDrops(blank[1..], text);
    }
  }

  lemma {:induction false} TrimStartStops(text: string)
    ensures TrimStart(text) != [] ==> !IsWhitespace(TrimStart(text)[0])
  {
    if text != [] && IsWhitespace(text[0]) {
      TrimStartStops(text[1..]);
    }
  }

  lemma TrimEndSnoc(text: string, last: string)
    requires last != []
    ensures !IsWhitespace(last[|last| - 1]) ==> TrimEnd(text + last) == text + last
    ensures |last| == 1 && IsWhitespace(last[0]) ==> TrimEnd(text + last) == TrimEnd(text)
  {
    var whole := text + last;
    assert whole[|whole| - 1] == last[|last| - 1];
    assert |last| == 1 ==> whole[..|whole| - 1] == text;
  }

  /** The bytes of a character in UTF-8. */
  function Utf8Width(c: char): (n: nat)
    ensures 1 <= n <= 4
  {
    if c as int < 0x80 then 1 else if c as int < 0x800 then 2 else if c as int < 0x10000 then 3 else 4
  }

  lemma {:induction false} TrimEndFirst(text: string)
    requires text != "" && !IsWhitespace(text[0])
    ensures TrimEnd(text) != "" && TrimEnd(text)[0] == text[0]
  {
    if IsWhitespace(text[|text| - 1]) {
      TrimEndFirst(text[..|text| - 1]);
    }
  }
}
