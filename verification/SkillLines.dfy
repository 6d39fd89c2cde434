/** Which line of a front matter is taken by what: every line exactly once, and why. */
module SkillLines {
  import opened Common
  import opened Text
  import opened SkillScalar
  import opened SkillBlock
  import opened SkillFront
  import opened SkillFields

  /** What takes a line. */
  datatype Role = IgnoredLine | KeyLine | BlockLine | MetadataLine | SkippedLine | ContinuationLine

  /** The text after the colon of a key line. */
  function ValueText(line: string): string
  {
    match SplitKey(line) case None => "" case Some(pair) => TrimStart(pair.1)
  }

  /** What takes the lines after a key, decided by the key and the text after its colon. */
  function ConsumerOf(key: string, value: string): Role
  {
    if HeadOf(value).BlockHead? then BlockLine
    else if key == "metadata" && Trim(value) == "" then MetadataLine
    else if Trim(value) == "" || value[0] == '"' || value[0] == '\'' then SkippedLine
    else ContinuationLine
  }

  function RoleOf(front: seq<string>, item: Item, line: nat): Role
    requires item.from < |front|
  {
    if item.Ignored? then IgnoredLine
    else if line == item.from then KeyLine
    else ConsumerOf(item.key, ValueText(front[item.from]))
  }

  /** A line of a block scalar: blank, or indented at least as far as the block. */
  predicate IsBlockLine(line: string, base: Base)
  {
    IsBlank(line) || (base.Indent? && LeadingSpaces(line).Some? && LeadingSpaces(line).value >= base.base)
  }

  /** A line of a metadata map: blank, or one that does not end it. */
  predicate IsMetadataLine(line: string, base: Option<nat>)
  {
    IsBlank(line) || (base.Some? && !ReadMetaLine(line, base.value).Ends?)
  }

  /** Why a line has its role. */
  predicate Deserves(front: seq<string>, item: Item, line: nat, role: Role)
    requires item.from < |front| && line < |front|
  {
    match role
    case IgnoredLine => IsIgnored(front[line])
    case KeyLine =>
      && item.Keyed? && !IsIgnored(front[line]) && !IsIndented(front[line])
      && SplitKey(front[line]).Some? && Trim(SplitKey(front[line]).value.0) == item.key
    case BlockLine =>
      var head := HeadOf(ValueText(front[item.from]));
      head.BlockHead? && IsBlockLine(front[line], BaseOf(front, item.from + 1, head.indent))
    case MetadataLine => IsMetadataLine(front[line], MetaStart(front, item.from + 1))
    case SkippedLine => IsBlank(front[line]) || IsIndented(front[line])
    case ContinuationLine => IsBlank(front[line]) || IsIndented(front[line])
  }

  /** The line after an item is not taken by what took the item's last lines. */
  predicate Stops(front: seq<string>, item: Item)
    requires item.from < item.next <= |front|
  {
    item.Keyed? && item.next < |front| ==>
      var next := front[item.next];
      match ConsumerOf(item.key, ValueText(front[item.from]))
      case BlockLine =>
        var head := HeadOf(ValueText(front[item.from]));
        head.BlockHead? && !IsBlockLine(next, BaseOf(front, item.from + 1, head.indent))
      case MetadataLine => !IsMetadataLine(next, MetaStart(front, item.from + 1))
      case _ =>
        // an indented line would have been taken, at once or across blank lines
        var after := NextLine(front, item.next);
        !(IsIndented(next) && !IsBlank(next)) && (IsBlank(next) && after < |front| ==> !IsIndented(front[after]))
  }

  // ---- the readers ----

  lemma {:induction false} ContentTaken(front: seq<string>, i: nat, base: nat)
    requires i <= |front| && ContentLines(front, i, base).Taken?
    ensures var k := ContentLines(front, i, base).next;
      && (forall j | i <= j < k :: IsBlockLine(front[j], Indent(base)))
      && (k < |front| ==> !IsBlockLine(front[k], Indent(base)))
    decreases |front| - i
  {
    hide IsBlank; hide LeadingSpaces;
    if i < |front| {
      if IsBlank(front[i]) {
        ContentTaken(front, i + 1, base);
      } else if LeadingSpaces(front[i]).Some? && LeadingSpaces(front[i]).value >= base {
        ContentTaken(front, i + 1, base);
      }
    }
  }

  lemma BlockTaken(front: seq<string>, start: nat, style: BlockStyle, chomping: Chomping, explicit: Option<nat>)
    requires start <= |front| && BlockScalar(front, start, style, chomping, explicit).Read?
    ensures var k, base := BlockScalar(front, start, style, chomping, explicit).next, BaseOf(front, start, explicit);
      && (forall j | start <= j < k :: IsBlockLine(front[j], base))
      && (k < |front| ==> !IsBlockLine(front[k], base))
  {
    hide IsBlank; hide LeadingSpaces; hide ContentLines; hide BlockText; hide IsBlockLine;
    match BaseOf(front, start, explicit) {
      case Indent(base) => ContentTaken(front, start, base);
      case NoContent => NothingButBlank(front, start);
    }
  }

  lemma NothingButBlank(front: seq<string>, start: nat)
    requires start <= |front| && NextLine(front, start) == |front|
    ensures forall j | start <= j < |front| :: IsBlockLine(front[j], NoContent)
  {
  }

  lemma {:induction false} MetaTaken(front: seq<string>, i: nat, base: nat)
    requires i <= |front|
    ensures var k := MetaLines(front, i, base).next;
      && (forall j | i <= j < k :: IsMetadataLine(front[j], Some(base)))
      && (k < |front| ==> !IsMetadataLine(front[k], Some(base)))
    decreases |front| - i
  {
    hide IsBlank; hide ReadMetaLine;
    if i < |front| {
      BlankIsNothing(front[i], base);
      if !ReadMetaLine(front[i], base).Ends? {
        MetaTaken(front, i + 1, base);
      }
    }
  }

  lemma BlankIsNothing(line: string, base: nat)
    ensures IsBlank(line) ==> ReadMetaLine(line, base) == Nothing
  {
  }

  lemma MetadataTaken(front: seq<string>, start: nat)
    requires start <= |front|
    ensures var k, base := MetadataAt(front, start).next, MetaStart(front, start);
      && (forall j | start <= j < k :: IsMetadataLine(front[j], base))
      && (k < |front| ==> !IsMetadataLine(front[k], base))
  {
    hide IsBlank; hide ReadMetaLine; hide LeadingSpaces; hide MetaLines;
    var first := NextLine(front, start);
    match MetaStart(front, start) {
      case None =>
      case Some(base) => MetaTaken(front, first, base);
    }
  }

  lemma {:induction false} ContinuationTaken(front: seq<string>, i: nat)
    requires i <= |front|
    ensures var k := ContinuationAt(front, i).next;
      && (forall j | i <= j < k :: IsBlank(front[j]) || IsIndented(front[j]))
      && (k < |front| ==> !(IsIndented(front[k]) && !IsBlank(front[k])))
      && (k < |front| && IsBlank(front[k]) && NextLine(front, k) < |front| ==> !IsIndented(front[NextLine(front, k)]))
    decreases |front| - i
  {
    hide IsBlank; hide IsIndented; hide Trim;
    if i < |front| {
      if IsBlank(front[i]) {
        var probe := NextLine(front, i);
        if probe < |front| && IsIndented(front[probe]) {
          ContinuationTaken(front, probe);
        }
      } else if IsIndented(front[i]) {
        ContinuationTaken(front, i + 1);
      }
    }
  }

  // ---- the items ----

  /** Every line of an item deserves its role, and the item ends where its last consumer does. */
  ghost predicate IsTaken(front: seq<string>, item: Item)
    requires item.from < item.next <= |front|
  {
    && (forall line | item.from <= line < item.next :: Deserves(front, item, line, RoleOf(front, item, line)))
    && Stops(front, item)
  }

  lemma ItemIsTaken(front: seq<string>, i: nat)
    requires i < |front| && ItemAt(front, i).Found?
    ensures IsTaken(front, ItemAt(front, i).item)
  {
    hide ValueAt; hide IsIgnored; hide Trim; hide TrimStart; hide SplitKey; hide IsIndented; hide HeadOf;
    hide BaseOf; hide MetaStart;
    hide IsBlockLine; hide IsMetadataLine; hide IsBlank; hide NextLine;
    if !IsIgnored(front[i]) {
      var pair := SplitKey(front[i]).value;
      ValueIsTaken(front, i, Trim(pair.0), TrimStart(pair.1));
    }
  }

  lemma ValueIsTaken(front: seq<string>, i: nat, key: string, value: string)
    requires i < |front| && ValueAt(front, i, key, value).Found? && value == ValueText(front[i])
    ensures var item, role := ValueAt(front, i, key, value).item, ConsumerOf(key, value);
      && (forall line | i < line < item.next :: Deserves(front, item, line, role))
      && Stops(front, item)
  {
    hide BlockScalar; hide MetadataAt; hide ReadScalar; hide ContinuationAt; hide SkipIndented;
    hide ContinuedText; hide HeadOf;
    hide Trim; hide ValueText; hide IsBlockLine; hide IsMetadataLine; hide IsBlank; hide IsIndented;
    hide BaseOf; hide MetaStart;
    hide NextLine;
    match HeadOf(value) {
      case BlockHead(style, chomping, indent) => BlockTaken(front, i + 1, style, chomping, indent);
      case NotABlock =>
        MetadataTaken(front, i + 1);
        SkippedLines(front, i + 1);
        ContinuationTaken(front, i + 1);
    }
  }

  lemma {:induction false} ItemsAreItems(front: seq<string>, i: nat, k: nat)
    requires i <= |front| && ItemsFrom(front, i).All? && k < |ItemsFrom(front, i).items|
    ensures var item := ItemsFrom(front, i).items[k];
      item.from < item.next <= |front| && ItemAt(front, item.from) == Found(item)
    decreases |front| - i
  {
    hide ItemAt;
    if k > 0 {
      var item := ItemAt(front, i).item;
      ItemsAreItems(front, item.next, k - 1);
    }
  }

  /**
   * In a front matter that is accepted, every line is taken by exactly one
   * item, as a blank or comment line, as its key, or as a line of the block,
   * metadata map, continuation or skipped block of that key; it is such a
   * line; and the next line after the item is not.
   */
  lemma EveryLineTakenOnce(front: seq<string>, line: nat) returns (k: nat)
    requires ItemsFrom(front, 0).All? && line < |front|
    ensures var items := ItemsFrom(front, 0).items;
      && k < |items| && Takes(items[k], line)
      && (forall j | 0 <= j < |items| && Takes(items[j], line) :: j == k)
      && items[k].from < items[k].next <= |front|
      && Deserves(front, items[k], line, RoleOf(front, items[k], line)) && Stops(front, items[k])
  {
    hide ItemsFrom; hide Deserves; hide Stops; hide RoleOf;
    ItemsTile(front, 0);
    k := TiledOnce(ItemsFrom(front, 0).items, 0, |front|, line);
    ItemsAreItems(front, 0, k);
    ItemIsTaken(front, ItemsFrom(front, 0).items[k].from);
  }
}
