/** The entries of a skill document's front matter, and the fields they are assigned to. */
module SkillFields {
  import opened Common
  import opened Text
  import opened SkillScalar
  import opened SkillBlock
  import opened SkillFront

  // ---- the metadata map ----

  /** Splits at the first colon. */
  function SplitKey(line: string): Option<(string, string)>
  {
    var k := IndexOf(line, ':');
    if k < |line| then Some((line[..k], line[k + 1..])) else None
  }

  datatype MetaLine = Ends | Nothing | Pair(key: string, value: string)

  /** What one line contributes to a metadata map with indentation `base`. */
  function ReadMetaLine(line: string, base: nat): MetaLine
  {
    if IsBlank(line) then Nothing
    else match LeadingSpaces(line)
      case None => Nothing
      case Some(indent) =>
        if indent < base then Ends
        else if indent > base then Nothing
        else
          var body := TrimStart(line);
          if body != "" && body[0] == '#' then Nothing
          else match SplitKey(body)
            case None => Nothing
            case Some(pair) =>
              var value := ReadScalar(pair.1);
              if Trim(pair.0) != "" && value.Good? && value.text != "" then Pair(Trim(pair.0), value.text) else Nothing
  }

  datatype Meta = Meta(pairs: seq<(string, string)>, next: nat)

  function MetaLines(front: seq<string>, i: nat, base: nat): (r: Meta)
    requires i <= |front|
    ensures i <= r.next <= |front|
    decreases |front| - i
  {
    if i == |front| then Meta([], i)
    else match ReadMetaLine(front[i], base)
      case Ends => Meta([], i)
      case Nothing => MetaLines(front, i + 1, base)
      case Pair(key, value) =>
        var rest := MetaLines(front, i + 1, base);
        rest.(pairs := [(key, value)] + rest.pairs)
  }

  /** The pairs entered into a map in order, so that a later one wins. */
  function Entered(m: map<string, string>, pairs: seq<(string, string)>): map<string, string>
    decreases |pairs|
  {
    if pairs == [] then m else Entered(m[pairs[0].0 := pairs[0].1], pairs[1..])
  }

  /** Where the metadata lines start, and their indentation: none without an indented line. */
  function MetaStart(front: seq<string>, start: nat): Option<nat>
    requires start <= |front|
  {
    var first := NextLine(front, start);
    if first == |front| then None
    else match LeadingSpaces(front[first])
      case None => None
      case Some(base) => if base == 0 then None else Some(base)
  }

  function MetadataAt(front: seq<string>, start: nat): (r: Meta)
    requires start <= |front|
    ensures start <= r.next <= |front|
  {
    var first := NextLine(front, start);
    match MetaStart(front, start)
    case None => Meta([], first)
    case Some(base) => MetaLines(front, first, base)
  }

  method ReadMetadataMap(front: seq<string>, start: nat) returns (m: map<string, string>, cursor: nat)
    requires start <= |front|
    ensures m == Entered(map[], MetadataAt(front, start).pairs) && cursor == MetadataAt(front, start).next
  {
    hide ReadMetaLine; hide IsBlank;
    m := map[];
    cursor := SkipBlank(front, start);
    ghost var first := cursor;
    if cursor == |front| {
      return;
    }
    var found := CountLeadingSpaces(front[cursor]);
    if found.None? || found.value == 0 {
      return;
    }
    var base := found.value;
    while cursor < |front|
      invariant first <= cursor <= |front|
      invariant Entered(map[], MetaLines(front, first, base).pairs) == Entered(m, MetaLines(front, cursor, base).pairs)
      invariant MetaLines(front, first, base).next == MetaLines(front, cursor, base).next
    {
      var line := ParseMetaLine(front[cursor], base);
      if line.Ends? {
        break;
      }
      if line.Pair? {
        ghost var rest := MetaLines(front, cursor + 1, base).pairs;
        assert ([(line.key, line.value)] + rest)[1..] == rest;
        m := m[line.key := line.value];
      }
      cursor := cursor + 1;
    }
  }

  method ParseMetaLine(line: string, base: nat) returns (r: MetaLine)
    ensures r == ReadMetaLine(line, base)
  {
    if IsBlank(line) {
      return Nothing;
    }
    var indent := CountLeadingSpaces(line);
    if indent.None? {
      return Nothing;
    }
    if indent.value < base {
      return Ends;
    }
    if indent.value > base {
      return Nothing;
    }
    var body := TrimStart(line);
    if body != "" && body[0] == '#' {
      return Nothing;
    }
    var pair := SplitKey(body);
    if pair.None? || Trim(pair.value.0) == "" {
      return Nothing;
    }
    var value := ParseScalar(pair.value.1);
    return if value.Good? && value.text != "" then Pair(Trim(pair.value.0), value.text) else Nothing;
  }

  // ---- the head of a block scalar ----

  datatype Head = NotABlock | BlockHead(style: BlockStyle, chomping: Chomping, indent: Option<nat>) | BadHead(c: char)

  function HeadRest(text: string, style: BlockStyle, chomping: Chomping, indent: Option<nat>): Head
    decreases |text|
  {
    if text == "" || text[0] == ' ' || text[0] == '\t' || text[0] == '#' then BlockHead(style, chomping, indent)
    else if text[0] == '-' then HeadRest(text[1..], style, Strip, indent)
    else if text[0] == '+' then HeadRest(text[1..], style, Keep, indent)
    else if '0' <= text[0] <= '9' then HeadRest(text[1..], style, chomping, Some(text[0] as nat - '0' as nat))
    else BadHead(text[0])
  }

  function HeadOf(value: string): Head
  {
    if value == "" || (value[0] != '|' && value[0] != '>') then NotABlock
    else HeadRest(value[1..], if value[0] == '>' then Folded else Literal, Clip, None)
  }

  method BlockIndicator(value: string) returns (h: Head)
    ensures h == HeadOf(value)
  {
    if value == "" || (value[0] != '|' && value[0] != '>') {
      return NotABlock;
    }
    var style := if value[0] == '>' then Folded else Literal;
    var chomping := Clip;
    var indent: Option<nat> := None;
    var i := 1;
    while i < |value|
      invariant 1 <= i <= |value| && HeadOf(value) == HeadRest(value[i..], style, chomping, indent)
    {
      var c := value[i];
      assert value[i..][1..] == value[i + 1..];
      if c == '-' {
        chomping := Strip;
      } else if c == '+' {
        chomping := Keep;
      } else if '0' <= c <= '9' {
        indent := Some(c as nat - '0' as nat);
      } else if c == ' ' || c == '\t' || c == '#' {
        break;
      } else {
        return BadHead(c);
      }
      i := i + 1;
    }
    return BlockHead(style, chomping, indent);
  }

  // ---- the entries ----

  datatype Value = Words(text: string) | Pairs(pairs: seq<(string, string)>)

  /** One consumer of lines: a blank or comment line, or a key with everything that belongs to it. */
  datatype Item =
    | Ignored(from: nat, next: nat)
    | Keyed(from: nat, next: nat, key: string, value: Value)

  datatype FrontError =
    | UnexpectedIndent(line: nat) | NoColon(line: nat) | EmptyKey(line: nat)
    | BadBlock(line: nat, block: BlockError) | BadScalar(line: nat, scalar: ScalarError)

  datatype ItemResult = Found(item: Item) | Failed(error: FrontError)

  predicate IsIgnored(line: string)
  {
    Trim(line) == "" || Trim(line)[0] == '#'
  }

  /** A key and the text after its colon. */
  function ValueAt(front: seq<string>, i: nat, key: string, value: string): (r: ItemResult)
    requires i < |front|
    ensures r.Found? ==> r.item.Keyed? && r.item.key == key && r.item.from == i < r.item.next <= |front|
  {
    match HeadOf(value)
    case BadHead(c) => Failed(BadBlock(i, BadIndicator(c)))
    case BlockHead(style, chomping, indent) =>
      (match BlockScalar(front, i + 1, style, chomping, indent)
       case Refused(error) => Failed(BadBlock(i, error))
       case Read(text, next) => Found(Keyed(i, next, key, Words(text))))
    case NotABlock =>
      if key == "metadata" && Trim(value) == "" then
        var meta := MetadataAt(front, i + 1);
        Found(Keyed(i, meta.next, key, Pairs(meta.pairs)))
      else match ReadScalar(value)
        case Bad(error) => Failed(BadScalar(i, error))
        case Good(text) =>
          if Trim(value) == "" || value[0] == '"' || value[0] == '\'' then
            Found(Keyed(i, SkipIndented(front, i + 1), key, Words(text)))
          else
            var rest := ContinuationAt(front, i + 1);
            Found(Keyed(i, rest.next, key, Words(ContinuedText(text, rest.lines))))
  }

  function ItemAt(front: seq<string>, i: nat): (r: ItemResult)
    requires i < |front|
    ensures r.Found? ==> r.item.from == i < r.item.next <= |front|
  {
    if IsIgnored(front[i]) then Found(Ignored(i, i + 1))
    else if IsIndented(front[i]) then Failed(UnexpectedIndent(i))
    else match SplitKey(front[i])
      case None => Failed(NoColon(i))
      case Some(pair) =>
        if Trim(pair.0) == "" then Failed(EmptyKey(i))
        else ValueAt(front, i, Trim(pair.0), TrimStart(pair.1))
  }

  datatype Items = All(items: seq<Item>) | Fails(error: FrontError)

  function ThenItems(done: seq<Item>, rest: Items): Items
  {
    if rest.All? then All(done + rest.items) else rest
  }

  function ItemsFrom(front: seq<string>, i: nat): Items
    requires i <= |front|
    decreases |front| - i
  {
    if i == |front| then All([])
    else match ItemAt(front, i)
      case Failed(error) => Fails(error)
      case Found(item) => ThenItems([item], ItemsFrom(front, item.next))
  }

  // ---- the fields ----

  datatype Fields = Fields(
    name: Option<string>, description: Option<string>, license: Option<string>, compatibility: Option<string>,
    metadata: map<string, string>, allowedTools: Option<string>)

  const NO_FIELDS := Fields(None, None, None, None, map[], None)

  function Assigned(f: Fields, key: string, text: string): Fields
  {
    match key
    case "name" => f.(name := Some(text))
    case "description" => f.(description := Some(text))
    case "license" => f.(license := Some(text))
    case "compatibility" => f.(compatibility := Some(text))
    case "allowed-tools" => f.(allowedTools := Some(text))
    case _ => f
  }

  function Applied(f: Fields, item: Item): Fields
  {
    match item
    case Ignored(_, _) => f
    case Keyed(_, _, key, Words(text)) => Assigned(f, key, text)
    case Keyed(_, _, _, Pairs(pairs)) => f.(metadata := f.metadata + Entered(map[], pairs))
  }

  function AllApplied(f: Fields, items: seq<Item>): Fields
    decreases |items|
  {
    if items == [] then f else AllApplied(Applied(f, items[0]), items[1..])
  }

  datatype Front = Parsed(fields: Fields) | Rejected(error: FrontError)

  function FrontOf(items: Items): Front
  {
    match items case Fails(error) => Rejected(error) case All(items) => Parsed(AllApplied(NO_FIELDS, items))
  }

  lemma {:induction false} AppliedSnoc(f: Fields, items: seq<Item>, item: Item)
    ensures AllApplied(f, items + [item]) == Applied(AllApplied(f, items), item)
    decreases |items|
  {
    if items == [] {
      assert items + [item] == [item] && [item][1..] == [];
    } else {
      assert (items + [item])[1..] == items[1..] + [item];
      AppliedSnoc(Applied(f, items[0]), items[1..], item);
    }
  }

  lemma ThenSnoc(done: seq<Item>, item: Item, rest: Items)
    ensures ThenItems(done, ThenItems([item], rest)) == ThenItems(done + [item], rest)
  {
    if rest.All? {
      ConcatAssociates(done, [item], rest.items);
    }
  }

  /** The fields after an item, and where reading goes on. */
  datatype Outcome = Moved(fields: Fields, next: nat) | Stopped(error: FrontError)

  function Step(f: Fields, r: ItemResult): Outcome
  {
    match r case Failed(error) => Stopped(error) case Found(item) => Moved(Applied(f, item), item.next)
  }

  method AssignField(f: Fields, key: string, text: string) returns (g: Fields)
    ensures g == Assigned(f, key, text)
  {
    g := match key
      case "name" => f.(name := Some(text))
      case "description" => f.(description := Some(text))
      case "license" => f.(license := Some(text))
      case "compatibility" => f.(compatibility := Some(text))
      case "allowed-tools" => f.(allowedTools := Some(text))
      case _ => f;
  }

  method ReadKey(front: seq<string>, i: nat, key: string, value: string, f: Fields) returns (r: Outcome)
    requires i < |front|
    ensures r == Step(f, ValueAt(front, i, key, value))
  {
    hide Assigned; hide HeadOf; hide Entered; hide MetadataAt; hide ReadScalar; hide ContinuedText;
    var head := BlockIndicator(value);
    if head.BadHead? {
      return Stopped(BadBlock(i, BadIndicator(head.c)));
    }
    if head.BlockHead? {
      var block := ReadBlockScalar(front, i + 1, head.style, head.chomping, head.indent);
      if block.Refused? {
        return Stopped(BadBlock(i, block.error));
      }
      var g := AssignField(f, key, block.text);
      return Moved(g, block.next);
    }
    if key == "metadata" && Trim(value) == "" {
      var entries, next := ReadMetadataMap(front, i + 1);
      return Moved(f.(metadata := f.metadata + entries), next);
    }
    var scalar := ParseScalar(value);
    if scalar.Bad? {
      return Stopped(BadScalar(i, scalar.error));
    }
    var text, next;
    if Trim(value) == "" || value[0] == '"' || value[0] == '\'' {
      text := scalar.text;
      next := SkipIndentedBlock(front, i + 1);
    } else {
      text, next := ReadPlainContinuation(front, i + 1, scalar.text);
    }
    var g := AssignField(f, key, text);
    return Moved(g, next);
  }

  method ReadItem(front: seq<string>, i: nat, f: Fields) returns (r: Outcome)
    requires i < |front|
    ensures r == Step(f, ItemAt(front, i))
  {
    hide ValueAt; hide IsIndented; hide IndexOf;
    var line := front[i];
    var trimmed := Trim(line);
    if trimmed == "" || trimmed[0] == '#' {
      return Moved(f, i + 1);
    }
    if IsIndented(line) {
      return Stopped(UnexpectedIndent(i));
    }
    var pair := SplitKey(line);
    if pair.None? {
      return Stopped(NoColon(i));
    }
    var key := Trim(pair.value.0);
    if key == "" {
      return Stopped(EmptyKey(i));
    }
    r := ReadKey(front, i, key, TrimStart(pair.value.1), f);
  }

  method ParseFrontMatter(front: seq<string>) returns (r: Front)
    ensures r == FrontOf(ItemsFrom(front, 0))
  {
    hide ItemAt; hide Applied;
    var fields := NO_FIELDS;
    var index := 0;
    ghost var done: seq<Item> := [];
    while index < |front|
      invariant 0 <= index <= |front| && fields == AllApplied(NO_FIELDS, done)
      invariant ItemsFrom(front, 0) == ThenItems(done, ItemsFrom(front, index))
    {
      ghost var found := ItemAt(front, index);
      var out := ReadItem(front, index, fields);
      if out.Stopped? {
        return Rejected(out.error);
      }
      AppliedSnoc(NO_FIELDS, done, found.item);
      ThenSnoc(done, found.item, ItemsFrom(front, found.item.next));
      done := done + [found.item];
      fields, index := out.fields, out.next;
    }
    assert done + [] == done;
    return Parsed(fields);
  }

  // ---- what every front matter keeps ----

  /** The items are consecutive, non-empty, and cover the lines from `i` to the end. */
  ghost predicate Tiles(items: seq<Item>, i: nat, end: nat)
  {
    if items == [] then i == end else items[0].from == i < items[0].next && Tiles(items[1..], items[0].next, end)
  }

  lemma {:induction false} ItemsTile(front: seq<string>, i: nat)
    requires i <= |front| && ItemsFrom(front, i).All?
    ensures Tiles(ItemsFrom(front, i).items, i, |front|)
    decreases |front| - i
  {
    hide ItemAt;
    if i < |front| {
      var item := ItemAt(front, i).item;
      ItemsTile(front, item.next);
      var rest := ItemsFrom(front, item.next).items;
      assert ([item] + rest)[1..] == rest;
    }
  }

  predicate Takes(item: Item, line: nat)
  {
    item.from <= line < item.next
  }

  lemma {:induction false} TiledOnce(items: seq<Item>, i: nat, end: nat, line: nat) returns (k: nat)
    requires Tiles(items, i, end) && i <= line < end
    ensures k < |items| && Takes(items[k], line)
    ensures forall j | 0 <= j < |items| && Takes(items[j], line) :: j == k
    decreases |items|
  {
    if line < items[0].next {
      k := 0;
      forall j | 0 <= j < |items| && Takes(items[j], line)
        ensures j == k
      {
        if j > 0 {
          LaterStart(items[1..], items[0].next, end, j - 1);
        }
      }
    } else {
      var rest := TiledOnce(items[1..], items[0].next, end, line);
      k := rest + 1;
      assert forall j | 1 <= j < |items| && Takes(items[j], line) :: Takes(items[1..][j - 1], line);
    }
  }

  lemma {:induction false} LaterStart(items: seq<Item>, i: nat, end: nat, j: nat)
    requires Tiles(items, i, end) && j < |items|
    ensures i <= items[j].from
    decreases |items|
  {
    if j > 0 {
      LaterStart(items[1..], items[0].next, end, j - 1);
    }
  }

  /** The text fields by key. */
  function FieldOf(f: Fields, key: string): Option<string>
  {
    match key
    case "name" => f.name
    case "description" => f.description
    case "license" => f.license
    case "compatibility" => f.compatibility
    case "allowed-tools" => f.allowedTools
    case _ => None
  }

  predicate IsField(key: string)
  {
    key == "name" || key == "description" || key == "license" || key == "compatibility" || key == "allowed-tools"
  }

  /** The text of the last item with a key. */
  function LastText(items: seq<Item>, key: string): Option<string>
  {
    if items == [] then None
    else
      var last := items[|items| - 1];
      if last.Keyed? && last.key == key && last.value.Words? then Some(last.value.text)
      else LastText(items[..|items| - 1], key)
  }

  /** A field has the text of the last item with its key; an item with another key does not change it. */
  lemma {:induction false} LaterWins(items: seq<Item>, key: string)
    requires IsField(key)
    ensures FieldOf(AllApplied(NO_FIELDS, items), key) == LastText(items, key)
  {
    hide IsField;
    if items == [] {
      NothingAssigned(key);
    } else {
      var front, last := items[..|items| - 1], items[|items| - 1];
      assert items == front + [last];
      AppliedSnoc(NO_FIELDS, front, last);
      LaterWins(front, key);
      OneApplied(AllApplied(NO_FIELDS, front), last, key);
    }
  }

  lemma NothingAssigned(key: string)
    ensures FieldOf(NO_FIELDS, key) == None
  {
  }

  lemma OneApplied(f: Fields, item: Item, key: string)
    requires IsField(key)
    ensures FieldOf(Applied(f, item), key) ==
            if item.Keyed? && item.key == key && item.value.Words? then Some(item.value.text) else FieldOf(f, key)
  {
  }
}
