/** A whole skill document: its fences, its front matter, its instructions. */
module SkillDoc {
  import opened Common
  import opened Text
  import opened SkillFields

  const FENCE := "---"

  datatype Doc = Doc(
    name: string, description: string, license: Option<string>, compatibility: Option<string>,
    metadata: map<string, string>, allowedTools: Option<string>, instructions: string)

  datatype DocError =
    | MissingFrontMatter | UnterminatedFrontMatter | Invalid(error: FrontError)
    | NoName | BlankName | NoDescription | BlankDescription

  datatype DocResult = Document(doc: Doc) | Refusal(error: DocError)

  predicate IsFence(line: string)
  {
    TrimEnd(line) == FENCE
  }

  /** The first fence from `i` on, or the end. */
  function FenceFrom(lines: seq<string>, i: nat): (k: nat)
    requires i <= |lines|
    ensures i <= k <= |lines|
    decreases |lines| - i
  {
    if i < |lines| && !IsFence(lines[i]) then FenceFrom(lines, i + 1) else i
  }

  /** The document of the parsed fields: a name and a description that are not blank are required. */
  function DocOf(front: Front, body: seq<string>): DocResult
  {
    match front
    case Rejected(error) => Refusal(Invalid(error))
    case Parsed(f) =>
      if f.name.None? then Refusal(NoName)
      else if Trim(f.name.value) == "" then Refusal(BlankName)
      else if f.description.None? then Refusal(NoDescription)
      else if Trim(f.description.value) == "" then Refusal(BlankDescription)
      else Document(Doc(f.name.value, f.description.value, f.license, f.compatibility, f.metadata, f.allowedTools,
                        Trim(Join(body, '\n'))))
  }

  function DocOfLines(lines: seq<string>): DocResult
    requires lines != []
  {
    if !IsFence(lines[0]) then Refusal(MissingFrontMatter)
    else
      var close := FenceFrom(lines, 1);
      if close == |lines| then Refusal(UnterminatedFrontMatter)
      else DocOf(FrontOf(ItemsFrom(lines[1..close], 0)), lines[close + 1..])
  }

  function ReadDoc(source: string): DocResult
  {
    DocOfLines(SplitOn(ReplaceCrLf(DropBom(source)), '\n'))
  }

  method ParseSkillDoc(source: string) returns (r: DocResult)
    ensures r == ReadDoc(source)
  {
    hide DocOf; hide FrontOf; hide SplitOn; hide ReplaceCrLf; hide DropBom; hide IsFence;
    var lines := SplitOn(ReplaceCrLf(DropBom(source)), '\n');
    if !IsFence(lines[0]) {
      return Refusal(MissingFrontMatter);
    }
    var front, body, closed := SplitAtFence(lines);
    if !closed {
      return Refusal(UnterminatedFrontMatter);
    }
    var fields := ParseFrontMatter(front);
    r := Finish(fields, body);
  }

  method SplitAtFence(lines: seq<string>) returns (front: seq<string>, body: seq<string>, closed: bool)
    requires lines != []
    ensures var close := FenceFrom(lines, 1);
      closed == (close < |lines|) && front == lines[1..close] && (closed ==> body == lines[close + 1..])
  {
    hide IsFence;
    front, body, closed := [], [], false;
    ghost var close := FenceFrom(lines, 1);
    for i := 1 to |lines|
      invariant !closed ==> front == lines[1..i] && body == [] && close == FenceFrom(lines, i)
      invariant closed ==> close < i && front == lines[1..close] && body == lines[close + 1..i]
    {
      assert 1 < i ==> lines[1..i] + [lines[i]] == lines[1..i + 1];
      if !closed {
        if IsFence(lines[i]) {
          closed := true;
          continue;
        }
        front := front + [lines[i]];
      } else {
        body := body + [lines[i]];
      }
    }
  }

  method Finish(front: Front, body: seq<string>) returns (r: DocResult)
    ensures r == DocOf(front, body)
  {
    if front.Rejected? {
      return Refusal(Invalid(front.error));
    }
    var f := front.fields;
    if f.name.None? {
      return Refusal(NoName);
    }
    if Trim(f.name.value) == "" {
      return Refusal(BlankName);
    }
    if f.description.None? {
      return Refusal(NoDescription);
    }
    if Trim(f.description.value) == "" {
      return Refusal(BlankDescription);
    }
    return Document(Doc(f.name.value, f.description.value, f.license, f.compatibility, f.metadata, f.allowedTools,
                        Trim(Join(body, '\n'))));
  }
}
