/** Values shared by every component of the model. */
module Common {

  datatype Option<+T> = None | Some(value: T)

  newtype byte = x: int | 0 <= x < 256

  /** The concatenation of a sequence of pieces, in order. */
  function Flatten<T>(pieces: seq<seq<T>>): seq<T>
  {
    if pieces == [] then [] else pieces[0] + Flatten(pieces[1..])
  }

  ghost predicate NoDuplicates<T>(xs: seq<T>)
  {
    forall i, j | 0 <= i < j < |xs| :: xs[i] != xs[j]
  }

  lemma ConcatAssociates<T>(a: seq<T>, b: seq<T>, c: seq<T>)
    ensures a + (b + c) == a + b + c
  {
  }

  lemma SliceOfDrop<T>(s: seq<T>, i: nat, from: nat, to: nat)
    requires from <= to && i + to <= |s|
    ensures s[i..][from..to] == s[i + from..i + to]
  {
  }

  lemma SliceOfSlice<T>(s: seq<T>, i: nat, k: nat, from: nat, to: nat)
    requires i <= k <= |s| && from <= to && i + to <= k
    ensures s[i..k][from..to] == s[i + from..i + to]
  {
    var a, b := s[i..k][from..to], s[i + from..i + to];
    assert forall j | 0 <= j < to - from :: a[j] == s[i..k][from + j] == s[i + from + j] == b[j];
  }

  lemma AroundTwo<T>(s: seq<T>, k: nat)
    requires k + 2 <= |s|
    ensures s == s[..k] + [s[k]] + ([s[k + 1]] + s[k + 2..])
  {
  }

  lemma FlattenSnoc<T>(pieces: seq<seq<T>>, last: seq<T>)
    ensures Flatten(pieces + [last]) == Flatten(pieces) + last
  {
    if pieces == [] {
      assert pieces + [last] == [last];
      assert Flatten([last]) == last + Flatten<T>([]);
    } else {
      assert (pieces + [last])[1..] == pieces[1..] + [last];
      FlattenSnoc(pieces[1..], last);
    }
  }

  /** The values joined with one separator character between neighbours. */
  function Join(values: seq<string>, separator: char): string
  {
    if values == [] then ""
    else if |values| == 1 then values[0]
    else values[0] + [separator] + Join(values[1..], separator)
  }

  /** The first position of `c` in `text`, or the length of `text` when it does not occur. */
  function IndexOf(text: string, c: char): (k: nat)
    ensures k <= |text|
    ensures c !in text[..k]
    ensures k < |text| ==> text[k] == c
  {
    if text == "" || text[0] == c then 0 else 1 + IndexOf(text[1..], c)
  }

  /** The parts of a text between the occurrences of a separator. */
  function SplitOn(text: string, separator: char): (parts: seq<string>)
    ensures parts != []
  {
    if text == "" then [""]
    else
      var rest := SplitOn(text[1..], separator);
      if text[0] == separator then [""] + rest else [[text[0]] + rest[0]] + rest[1..]
  }

  lemma {:induction false} SplitOnConcat(a: string, b: string, c: char)
    ensures SplitOn(a + [c] + b, c) == SplitOn(a, c) + SplitOn(b, c)
  {
    var text := a + [c] + b;
    if a == "" {
      assert text[0] == c && text[1..] == b;
    } else {
      assert text[0] == a[0] && text[1..] == a[1..] + [c] + b;
      SplitOnConcat(a[1..], b, c);
      var rest, after := SplitOn(a[1..], c), SplitOn(b, c);
      if a[0] == c {
        ConcatAssociates([""], rest, after);
      } else {
        GrownConcat(a[0], rest, after);
      }
    }
  }

  lemma GrownConcat(c: char, rest: seq<string>, after: seq<string>)
    requires rest != []
    ensures [[c] + (rest + after)[0]] + (rest + after)[1..] == [[c] + rest[0]] + rest[1..] + after
  {
    assert (rest + after)[1..] == rest[1..] + after;
    ConcatAssociates([[c] + rest[0]], rest[1..], after);
  }

  lemma SplitOnAbsent(text: string, c: char)
    requires c !in text
    ensures SplitOn(text, c) == [text]
  {
    if text != "" {
      SplitOnAbsent(text[1..], c);
      assert [text[0]] + text[1..] == text;
    }
  }

  /** Splitting and joining on the same character are inverse. */
  lemma {:induction false} JoinOfSplit(text: string, separator: char)
    ensures Join(SplitOn(text, separator), separator) == text
  {
    if text != "" {
      var rest := SplitOn(text[1..], separator);
      JoinOfSplit(text[1..], separator);
      if text[0] == separator {
        assert ([""] + rest)[1..] == rest;
        assert "" + [separator] + text[1..] == text;
      } else {
        var first := [text[0]] + rest[0];
        assert ([first] + rest[1..])[1..] == rest[1..];
        assert rest == [rest[0]] + rest[1..];
        if |rest| > 1 {
          ConcatAssociates([text[0]], rest[0], [separator]);
          ConcatAssociates([text[0]], rest[0] + [separator], Join(rest[1..], separator));
        }
        assert [text[0]] + text[1..] == text;
      }
    }
  }

  const BOM: char := '\U{FEFF}'

  /** The text without one leading byte order mark. */
  function DropBom(text: string): string
  {
    if text != "" && text[0] == BOM then text[1..] else text
  }

  /** Every CRLF pair, from the left, as one LF. */
  function ReplaceCrLf(text: string): string
    decreases |text|
  {
    if text == "" then ""
    else if |text| > 1 && text[0] == '\r' && text[1] == '\n' then "\n" + ReplaceCrLf(text[2..])
    else [text[0]] + ReplaceCrLf(text[1..])
  }

  predicate EndsWith(text: string, suffix: string)
  {
    |suffix| <= |text| && text[|text| - |suffix|..] == suffix
  }
}
