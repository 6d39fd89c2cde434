/** The scan with an explicit stack, its limits, and its result. */
module SourcesScan {
  import opened Common
  import opened Sources
  import opened SourcesOrigin

  // ---- collecting ----

  type Collection = map<string, Title>

  /** The first title of a URL stays; nothing new is taken once the collection is full. */
  function Insert(m: Collection, s: Source): Collection
  {
    if |m| < SOURCE_LIMIT && s.url !in m then m[s.url := s.title] else m
  }

  function InsertAll(m: Collection, sources: seq<Source>): Collection
    decreases |sources|
  {
    if sources == [] then m else InsertAll(Insert(m, sources[0]), sources[1..])
  }

  lemma {:induction false} InsertConcat(m: Collection, a: seq<Source>, b: seq<Source>)
    ensures InsertAll(m, a + b) == InsertAll(InsertAll(m, a), b)
    decreases |a|
  {
    if a == [] {
      assert a + b == b;
    } else {
      assert (a + b)[1..] == a[1..] + b;
      InsertConcat(Insert(m, a[0]), a[1..], b);
    }
  }

  /** What a collection holds was inserted. */
  lemma {:induction false} InsertedFrom(m: Collection, sources: seq<Source>, url: string)
    requires url in InsertAll(m, sources)
    ensures var s := Source(url, InsertAll(m, sources)[url]); s in sources || (url in m && m[url] == s.title)
    decreases |sources|
  {
    if sources != [] {
      InsertedFrom(Insert(m, sources[0]), sources[1..], url);
    }
  }

  // ---- the head of a text ----

  /** The number of characters in the first `n` bytes, when a character ends there. */
  function CharsIn(text: string, n: nat): (k: Option<nat>)
    ensures k.Some? ==> k.value <= |text| && Utf8Length(text[..k.value]) == n
    ensures k.None? ==> forall j | 0 <= j <= |text| :: Utf8Length(text[..j]) != n
  {
    if Utf8Length(text) == n then assert text[..|text|] == text; Some(|text|)
    else if text == "" then assert text[..0] == text; None
    else
      var shorter := text[..|text| - 1];
      assert forall j | 0 <= j <= |shorter| :: shorter[..j] == text[..j];
      assert text[..|text|] == text;
      CharsIn(shorter, n)
  }

  /** The longest head of a text that fits into `limit` bytes. */
  method Utf8Head(text: string, limit: nat) returns (head: string)
    ensures head <= text && Utf8Length(head) <= limit
    ensures head == text || Utf8Length(text[..|head| + 1]) > limit
  {
    if Utf8Length(text) <= limit {
      return text;
    }
    var end: nat := limit;
    while CharsIn(text, end).None?
      invariant end <= limit
      invariant forall j | 0 <= j <= |text| :: !(end < Utf8Length(text[..j]) <= limit)
      decreases end
    {
      assert Utf8Length(text[..0]) == 0;
      end := end - 1;
    }
    var k := CharsIn(text, end).value;
    head := text[..k];
    assert text[..|text|] == text;
    if k < |text| {
      assert text[..k + 1][..k] == text[..k];
    }
  }

  // ---- the stack ----

  datatype Frame = Frame(value: Json, title: Title, depth: nat)

  /** The fields pushed so that the first one is on top. */
  function PushFields(stack: seq<Frame>, fields: seq<Field>, title: Title, depth: nat): (s: seq<Frame>)
    ensures |s| == |stack| + |fields|
  {
    if fields == [] then stack
    else PushFields(stack, fields[1..], title, depth) + [Frame(fields[0].value, title, depth)]
  }

  function PushValues(stack: seq<Frame>, values: seq<Json>, title: Title, depth: nat): (s: seq<Frame>)
    ensures |s| == |stack| + |values|
  {
    if values == [] then stack
    else PushValues(stack, values[1..], title, depth) + [Frame(values[0], title, depth)]
  }

  /** What is still to be found from the stack, from its top. */
  function WalkStack(stack: seq<Frame>, kind: Kind, web: Recogniser): seq<Source>
  {
    if stack == [] then []
    else
      var top := stack[|stack| - 1];
      Walk(top.value, top.title, kind, web) + WalkStack(stack[..|stack| - 1], kind, web)
  }

  function MeasuredStack(stack: seq<Frame>): Measure
  {
    if stack == [] then Measure(0, 0, 0)
    else
      var top := stack[|stack| - 1];
      var m := Measured(top.value);
      Beside(Measure(m.nodes, top.depth + m.depth - 1, m.bytes), MeasuredStack(stack[..|stack| - 1]))
  }

  lemma {:induction false} WalkPushedFields(
    stack: seq<Frame>, fields: seq<Field>, title: Title, depth: nat, kind: Kind, web: Recogniser)
    ensures WalkStack(PushFields(stack, fields, title, depth), kind, web) ==
            WalkFields(fields, title, kind, web) + WalkStack(stack, kind, web)
    decreases |fields|
  {
    hide Walk;
    if fields != [] {
      var below := PushFields(stack, fields[1..], title, depth);
      var pushed := PushFields(stack, fields, title, depth);
      assert pushed[..|pushed| - 1] == below;
      WalkPushedFields(stack, fields[1..], title, depth, kind, web);
      ConcatAssociates(Walk(fields[0].value, title, kind, web), WalkFields(fields[1..], title, kind, web),
        WalkStack(stack, kind, web));
    }
  }

  lemma {:induction false} WalkPushedValues(
    stack: seq<Frame>, values: seq<Json>, title: Title, depth: nat, kind: Kind, web: Recogniser)
    ensures WalkStack(PushValues(stack, values, title, depth), kind, web) ==
            WalkValues(values, title, kind, web) + WalkStack(stack, kind, web)
    decreases |values|
  {
    hide Walk;
    if values != [] {
      var below := PushValues(stack, values[1..], title, depth);
      var pushed := PushValues(stack, values, title, depth);
      assert pushed[..|pushed| - 1] == below;
      WalkPushedValues(stack, values[1..], title, depth, kind, web);
      ConcatAssociates(Walk(values[0], title, kind, web), WalkValues(values[1..], title, kind, web),
        WalkStack(stack, kind, web));
    }
  }

  lemma {:induction false} MeasurePushedFields(stack: seq<Frame>, fields: seq<Field>, title: Title, depth: nat)
    ensures var pushed, before, added := MeasuredStack(PushFields(stack, fields, title, depth)), MeasuredStack(stack),
      MeasuredFields(fields);
      && pushed.nodes == before.nodes + added.nodes && pushed.bytes == before.bytes + added.bytes
      && (pushed.depth <= before.depth || pushed.depth <= depth + added.depth - 1)
    decreases |fields|
  {
    hide Measured;
    if fields != [] {
      var pushed := PushFields(stack, fields, title, depth);
      assert pushed[..|pushed| - 1] == PushFields(stack, fields[1..], title, depth);
      MeasurePushedFields(stack, fields[1..], title, depth);
    }
  }

  lemma {:induction false} MeasurePushedValues(stack: seq<Frame>, values: seq<Json>, title: Title, depth: nat)
    ensures var pushed, before, added := MeasuredStack(PushValues(stack, values, title, depth)), MeasuredStack(stack),
      MeasuredValues(values);
      && pushed.nodes == before.nodes + added.nodes && pushed.bytes == before.bytes + added.bytes
      && (pushed.depth <= before.depth || pushed.depth <= depth + added.depth - 1)
    decreases |values|
  {
    hide Measured;
    if values != [] {
      var pushed := PushValues(stack, values, title, depth);
      assert pushed[..|pushed| - 1] == PushValues(stack, values[1..], title, depth);
      MeasurePushedValues(stack, values[1..], title, depth);
    }
  }

  lemma {:induction false} StackIsNodes(stack: seq<Frame>)
    ensures |stack| <= MeasuredStack(stack).nodes
  {
    if stack != [] {
      StackIsNodes(stack[..|stack| - 1]);
    }
  }

  lemma {:induction false} FieldsAreNodes(fields: seq<Field>)
    ensures |fields| <= MeasuredFields(fields).nodes
  {
    if fields != [] {
      FieldsAreNodes(fields[1..]);
    }
  }

  lemma {:induction false} ValuesAreNodes(values: seq<Json>)
    ensures |values| <= MeasuredValues(values).nodes
  {
    if values != [] {
      ValuesAreNodes(values[1..]);
    }
  }

  // ---- what the stack holds, whatever the limits ----

  /** The stack holds nodes of the tree, and what was found is in the tree. */
  ghost predicate Grounded(root: Json, stack: seq<Frame>, found: seq<Source>, said: seq<Source>, web: Recogniser)
  {
    && AreNodes(root, stack)
    && (forall s | s in found :: s in Walk(root, None, Explicit, web))
    && (forall s | s in said :: IsMentioned(root, s, web))
  }

  ghost predicate AreNodes(root: Json, stack: seq<Frame>)
  {
    forall f | f in stack :: Node(f.value, f.title) in Nodes(root, None)
  }

  lemma GroundedStart(root: Json, web: Recogniser)
    ensures Grounded(root, [Frame(root, None, 1)], [], [], web)
  {
  }

  lemma {:induction false} FieldsPushed(stack: seq<Frame>, fields: seq<Field>, title: Title, depth: nat, f: Frame)
    requires f in PushFields(stack, fields, title, depth)
    ensures f in stack || exists i :: 0 <= i < |fields| && f == Frame(fields[i].value, title, depth)
    decreases |fields|
  {
    if fields != [] && f != Frame(fields[0].value, title, depth) {
      FieldsPushed(stack, fields[1..], title, depth, f);
      if f !in stack {
        var i :| 0 <= i < |fields[1..]| && f == Frame(fields[1..][i].value, title, depth);
        assert fields[1..][i] == fields[i + 1];
      }
    }
  }

  lemma {:induction false} ValuesPushed(stack: seq<Frame>, values: seq<Json>, title: Title, depth: nat, f: Frame)
    requires f in PushValues(stack, values, title, depth)
    ensures f in stack || exists i :: 0 <= i < |values| && f == Frame(values[i], title, depth)
    decreases |values|
  {
    if values != [] && f != Frame(values[0], title, depth) {
      ValuesPushed(stack, values[1..], title, depth, f);
      if f !in stack {
        var i :| 0 <= i < |values[1..]| && f == Frame(values[1..][i], title, depth);
        assert values[1..][i] == values[i + 1];
      }
    }
  }

  lemma NodesObject(root: Json, rest: seq<Frame>, fields: seq<Field>, k: nat, inherited: Title, depth: nat)
    requires AreNodes(root, rest) && Node(Object(fields), inherited) in Nodes(root, None) && k <= |fields|
    ensures AreNodes(root, PushFields(rest, fields[k..], TitleOf(fields, inherited), depth))
  {
    hide TitleOf; hide PushFields; hide NodesOfFields;
    var title := TitleOf(fields, inherited);
    forall f | f in PushFields(rest, fields[k..], title, depth)
      ensures Node(f.value, f.title) in Nodes(root, None)
    {
      FieldsPushed(rest, fields[k..], title, depth, f);
      if f !in rest {
        var i :| 0 <= i < |fields[k..]| && f == Frame(fields[k..][i].value, title, depth);
        FieldIsNode(fields, title, k + i);
        NodesBelow(root, None, Node(Object(fields), inherited), Node(f.value, f.title));
      }
    }
  }

  lemma NodesArray(root: Json, rest: seq<Frame>, values: seq<Json>, k: nat, title: Title, depth: nat)
    requires AreNodes(root, rest) && Node(Array(values), title) in Nodes(root, None) && k <= |values|
    ensures AreNodes(root, PushValues(rest, values[k..], title, depth))
  {
    hide PushValues; hide NodesOfValues;
    forall f | f in PushValues(rest, values[k..], title, depth)
      ensures Node(f.value, f.title) in Nodes(root, None)
    {
      ValuesPushed(rest, values[k..], title, depth, f);
      if f !in rest {
        var i :| 0 <= i < |values[k..]| && f == Frame(values[k..][i], title, depth);
        ValueIsNode(values, title, k + i);
        NodesBelow(root, None, Node(Array(values), title), Node(f.value, f.title));
      }
    }
  }

  lemma GroundedObject(
    root: Json, rest: seq<Frame>, top: Frame, k: nat, found: seq<Source>, said: seq<Source>, web: Recogniser)
    requires Grounded(root, rest + [top], found, said, web) && top.value.Object? && k <= |top.value.fields|
    ensures var fields := top.value.fields;
      var title := TitleOf(fields, top.title);
      Grounded(root, PushFields(rest, fields[k..], title, top.depth + 1),
               found + OwnSources(fields[k..], title, web), said, web)
  {
    hide TitleOf; hide PushFields; hide Nodes; hide IsMentioned; hide OwnSources; hide WalkFields;
    var fields := top.value.fields;
    var title := TitleOf(fields, top.title);
    assert top in rest + [top] && forall f | f in rest :: f in rest + [top];
    NodesObject(root, rest, fields, k, top.title, top.depth + 1);
    OwnSourcesOfLast(fields, k, title, web);
    forall s | s in OwnSources(fields[k..], title, web)
      ensures s in Walk(root, None, Explicit, web)
    {
      WalkBelow(root, None, Node(top.value, top.title), s, Explicit, web);
    }
  }

  lemma GroundedArray(
    root: Json, rest: seq<Frame>, top: Frame, k: nat, found: seq<Source>, said: seq<Source>, web: Recogniser)
    requires Grounded(root, rest + [top], found, said, web) && top.value.Array? && k <= |top.value.values|
    ensures Grounded(root, PushValues(rest, top.value.values[k..], top.title, top.depth + 1), found, said, web)
  {
    hide PushValues; hide Nodes; hide IsMentioned; hide Walk;
    assert top in rest + [top] && forall f | f in rest :: f in rest + [top];
    NodesArray(root, rest, top.value.values, k, top.title, top.depth + 1);
  }

  lemma GroundedText(
    root: Json, rest: seq<Frame>, top: Frame, head: string, found: seq<Source>, said: seq<Source>, web: Recogniser)
    requires Grounded(root, rest + [top], found, said, web) && top.value.Str? && head <= top.value.text
    ensures Grounded(root, rest, found, said + Mentioned(web.find(head), top.title, web), web)
  {
    hide Nodes; hide Walk; hide Mentioned;
    assert top in rest + [top] && forall f | f in rest :: f in rest + [top];
    assert IsHeadOf(head, Node(top.value, top.title));
  }

  lemma GroundedRest(root: Json, rest: seq<Frame>, top: Frame, found: seq<Source>, said: seq<Source>, web: Recogniser)
    requires Grounded(root, rest + [top], found, said, web)
    ensures Grounded(root, rest, found, said, web)
  {
    hide Nodes; hide Walk; hide IsMentioned;
    assert forall f | f in rest :: f in rest + [top];
  }

  // ---- the scan ----

  /** How far a scan has come: what it counted, what it found, and its stack. */
  datatype Progress = Progress(stack: seq<Frame>, nodes: nat, bytes: nat, found: seq<Source>, said: seq<Source>)

  /** What was found and what the stack still holds make up the whole walk. */
  ghost predicate Tracks(root: Json, p: Progress, web: Recogniser)
  {
    var left, whole := MeasuredStack(p.stack), Measured(root);
    && p.nodes + left.nodes == whole.nodes && p.bytes + left.bytes == whole.bytes && left.depth <= SCAN_DEPTH
    && p.found + WalkStack(p.stack, Explicit, web) == Walk(root, None, Explicit, web)
    && p.said + WalkStack(p.stack, Mention, web) == Walk(root, None, Mention, web)
  }

  lemma TracksStart(root: Json, web: Recogniser)
    requires IsWithinLimits(root)
    ensures Tracks(root, Progress([Frame(root, None, 1)], 0, 0, [], []), web)
  {
    hide Walk; hide Measured; hide WalkStack; hide MeasuredStack;
    var top := Frame(root, None, 1);
    OneFrame(top, Explicit, web);
    OneFrame(top, Mention, web);
  }

  lemma OneFrame(f: Frame, kind: Kind, web: Recogniser)
    requires f.depth == 1
    ensures [] + WalkStack([f], kind, web) == Walk(f.value, f.title, kind, web)
    ensures MeasuredStack([f]) == Measured(f.value)
  {
    hide Walk;
    assert [f][..0] == [];
    assert WalkStack([f], kind, web) == Walk(f.value, f.title, kind, web) + [];
  }

  /** Reading the top of the stack: its frame leaves, `pushed` replaces it, and its own references are found. */
  lemma TracksStep(
    root: Json, p: Progress, q: Progress, top: Frame, rest: seq<Frame>, own: seq<Source>,
    mentioned: seq<Source>, bytes: nat, web: Recogniser)
    requires Tracks(root, p, web) && p.stack == rest + [top]
    requires q == Progress(q.stack, p.nodes + 1, p.bytes + bytes, p.found + own, p.said + mentioned)
    requires Walk(top.value, top.title, Explicit, web) + WalkStack(rest, Explicit, web) ==
      own + WalkStack(q.stack, Explicit, web)
    requires Walk(top.value, top.title, Mention, web) + WalkStack(rest, Mention, web) ==
      mentioned + WalkStack(q.stack, Mention, web)
    requires var m, r, s := Measured(top.value), MeasuredStack(rest), MeasuredStack(q.stack);
      && s.nodes + 1 == m.nodes + r.nodes && s.bytes + bytes == m.bytes + r.bytes
      && (s.depth <= r.depth || s.depth <= top.depth + m.depth - 1)
    ensures Tracks(root, q, web)
  {
    hide Walk; hide Measured;
    assert p.stack[..|p.stack| - 1] == rest;
    ConcatAssociates(p.found, own, WalkStack(q.stack, Explicit, web));
    ConcatAssociates(p.said, mentioned, WalkStack(q.stack, Mention, web));
  }

  lemma TracksObject(
    root: Json, p: Progress, rest: seq<Frame>, fields: seq<Field>, inherited: Title, depth: nat, web: Recogniser)
    requires Tracks(root, p, web) && p.stack == rest + [Frame(Object(fields), inherited, depth)]
    ensures var title := TitleOf(fields, inherited);
      Tracks(root, Progress(PushFields(rest, fields, title, depth + 1), p.nodes + 1, p.bytes,
                            p.found + OwnSources(fields, title, web), p.said), web)
  {
    hide WalkStack; hide TitleOf; hide Tracks; hide MeasuredStack; hide PushFields; hide OwnSources;
    var title := TitleOf(fields, inherited);
    var stack, own := PushFields(rest, fields, title, depth + 1), OwnSources(fields, title, web);
    var q := Progress(stack, p.nodes + 1, p.bytes, p.found + own, p.said);
    WalkPushedFields(rest, fields, title, depth + 1, Explicit, web);
    WalkPushedFields(rest, fields, title, depth + 1, Mention, web);
    MeasurePushedFields(rest, fields, title, depth + 1);
    ConcatAssociates(own, WalkFields(fields, title, Explicit, web), WalkStack(rest, Explicit, web));
    ConcatAssociates([], WalkFields(fields, title, Mention, web), WalkStack(rest, Mention, web));
    assert p.said + [] == p.said;
    TracksStep(root, p, q, Frame(Object(fields), inherited, depth), rest, own, [], 0, web);
  }

  lemma TracksArray(
    root: Json, p: Progress, rest: seq<Frame>, values: seq<Json>, title: Title, depth: nat, web: Recogniser)
    requires Tracks(root, p, web) && p.stack == rest + [Frame(Array(values), title, depth)]
    ensures Tracks(root, Progress(PushValues(rest, values, title, depth + 1), p.nodes + 1, p.bytes, p.found,
      p.said), web)
  {
    hide WalkStack; hide Tracks; hide MeasuredStack; hide PushValues;
    var stack := PushValues(rest, values, title, depth + 1);
    var q := Progress(stack, p.nodes + 1, p.bytes, p.found, p.said);
    WalkPushedValues(rest, values, title, depth + 1, Explicit, web);
    WalkPushedValues(rest, values, title, depth + 1, Mention, web);
    MeasurePushedValues(rest, values, title, depth + 1);
    assert p.said + [] == p.said && p.found + [] == p.found;
    assert [] + WalkStack(stack, Explicit, web) == WalkStack(stack, Explicit, web);
    assert [] + WalkStack(stack, Mention, web) == WalkStack(stack, Mention, web);
    TracksStep(root, p, q, Frame(Array(values), title, depth), rest, [], [], 0, web);
  }

  lemma TracksLeaf(root: Json, p: Progress, rest: seq<Frame>, leaf: Json, title: Title, depth: nat, web: Recogniser)
    requires Tracks(root, p, web) && p.stack == rest + [Frame(leaf, title, depth)] && (leaf.Str? || leaf.Other?)
    ensures Tracks(root, Progress(rest, p.nodes + 1, p.bytes + Measured(leaf).bytes, p.found,
                                  p.said + Walk(leaf, title, Mention, web)), web)
  {
    hide WalkStack; hide Tracks; hide MeasuredStack;
    var mentioned, bytes := Walk(leaf, title, Mention, web), Measured(leaf).bytes;
    var q := Progress(rest, p.nodes + 1, p.bytes + bytes, p.found, p.said + mentioned);
    assert p.found + [] == p.found;
    assert Walk(leaf, title, Explicit, web) == [];
    TracksStep(root, p, q, Frame(leaf, title, depth), rest, [], mentioned, bytes, web);
  }

  /** How many of so many children are dropped when there is room for some. */
  function Dropped(count: nat, room: nat): nat
  {
    if count > room then count - room else 0
  }

  /** The part of the loop's state that decides where it goes: its stack, and the visited nodes. */
  datatype Shape = Shape(stack: seq<Frame>, nodes: nat)

  /**
   * One turn of the loop: the top of the stack is dropped, or visited and replaced
   * by those children that have room.
   */
  function Turn(s: Shape): Shape
    requires s.stack != []
    requires |s.stack| + s.nodes <= SCAN_NODES
  {
    var top, rest := s.stack[|s.stack| - 1], s.stack[..|s.stack| - 1];
    if s.nodes >= SCAN_NODES || top.depth > SCAN_DEPTH then Shape(rest, s.nodes)
    else
      var room := SCAN_NODES - (|rest| + s.nodes + 1);
      Shape(match top.value
            case Object(fields) =>
              PushFields(rest, fields[Dropped(|fields|, room)..], TitleOf(fields, top.title), top.depth + 1)
            case Array(values) => PushValues(rest, values[Dropped(|values|, room)..], top.title, top.depth + 1)
            case _ => rest,
            s.nodes + 1)
  }

  /** The turns of the loop from the root on: visited nodes and stack never exceed the node limit. */
  ghost predicate AreTurns(root: Json, trace: seq<Shape>)
  {
    && trace != [] && trace[0] == Shape([Frame(root, None, 1)], 0)
    && (forall i | 0 <= i < |trace| :: |trace[i].stack| + trace[i].nodes <= SCAN_NODES)
    && (forall i | 0 <= i < |trace| - 1 :: trace[i].stack != [] && trace[i + 1] == Turn(trace[i]))
  }

  lemma OneMoreTurn(root: Json, trace: seq<Shape>, next: Shape)
    requires AreTurns(root, trace)
    requires var last := trace[|trace| - 1];
      last.stack != [] && next == Turn(last) && |next.stack| + next.nodes <= SCAN_NODES
    ensures AreTurns(root, trace + [next])
  {
    hide Turn;
    var more := trace + [next];
    forall i | 0 <= i < |more| - 1
      ensures more[i].stack != [] && more[i + 1] == Turn(more[i])
    {
      assert more[i] == trace[i];
    }
  }

  /** The pushes of an object: from its last field, as long as the scan has room. */
  method VisitObject(
    below: seq<Frame>, nodes: nat, fields: seq<Field>, title: Title, depth: nat, before: Collection, web: Recogniser)
    returns (stack: seq<Frame>, explicit: Collection, ghost k: nat)
    requires |below| + nodes <= SCAN_NODES
    ensures k <= |fields| && stack == PushFields(below, fields[k..], title, depth) && |stack| + nodes <= SCAN_NODES
    ensures explicit == InsertAll(before, OwnSources(fields[k..], title, web))
    ensures k == Dropped(|fields|, SCAN_NODES - (|below| + nodes))
  {
    stack, explicit := below, before;
    var i := |fields|;
    while i > 0 && |stack| + nodes < SCAN_NODES
      invariant 0 <= i <= |fields| && stack == PushFields(below, fields[i..], title, depth)
      invariant explicit == InsertAll(before, OwnSources(fields[i..], title, web))
      invariant |stack| + nodes <= SCAN_NODES
    {
      i := i - 1;
      var field := fields[i];
      assert fields[i..][1..] == fields[i + 1..];
      ghost var later := OwnSources(fields[i + 1..], title, web);
      if IsUrlKey(field.key) && field.value.Str? {
        var url := web.public(field.value.text);
        if url.Some? && |explicit| < SOURCE_LIMIT && url.value !in explicit {
          explicit := explicit[url.value := title];
        }
      }
      InsertConcat(before, later, OwnSource(field, title, web));
      InsertOne(InsertAll(before, later), OwnSource(field, title, web));
      stack := stack + [Frame(field.value, title, depth)];
    }
    k := i;
  }

  lemma InsertOne(m: Collection, own: seq<Source>)
    requires |own| <= 1
    ensures InsertAll(m, own) == if own == [] then m else Insert(m, own[0])
  {
    if own != [] {
      assert own[1..] == [];
    }
  }

  /** The references mentioned in a text, as far as it is still scanned. */
  method VisitText(text: string, title: Title, bytes: nat, before: Collection, web: Recogniser)
    returns (total: nat, mentions: Collection, ghost scanned: string)
    requires bytes <= SCAN_BYTES
    ensures total <= SCAN_BYTES && total == bytes + Utf8Length(scanned) && scanned <= text
    ensures mentions == InsertAll(before, if bytes == SCAN_BYTES then [] else Mentioned(web.find(scanned), title, web))
    ensures bytes + Utf8Length(text) <= SCAN_BYTES ==> scanned == text
  {
    mentions, total, scanned := before, bytes, "";
    if bytes == SCAN_BYTES {
      assert text[..0] == "";
      NoBytes(text);
      return;
    }
    var head := Utf8Head(text, SCAN_BYTES - bytes);
    ghost var whole := Utf8Length(text);
    PrefixLength(text, head);
    scanned := head;
    total := bytes + Utf8Length(head);
    mentions := CollectMentions(web.find(head), title, before, web);
  }

  lemma NoBytes(text: string)
    ensures Utf8Length(text) == 0 ==> text == ""
  {
  }

  lemma {:induction false} PrefixLength(text: string, head: string)
    requires head <= text
    ensures |head| < |text| ==> Utf8Length(text[..|head| + 1]) <= Utf8Length(text)
  {
    if |head| + 1 < |text| {
      var shorter := text[..|text| - 1];
      PrefixLength(shorter, head);
      assert shorter[..|head| + 1] == text[..|head| + 1];
    } else if |head| < |text| {
      assert text[..|head| + 1] == text;
    }
  }

  method CollectMentions(candidates: seq<string>, title: Title, before: Collection, web: Recogniser)
    returns (mentions: Collection)
    ensures mentions == InsertAll(before, Mentioned(candidates, title, web))
  {
    mentions := before;
    for i := 0 to |candidates|
      invariant InsertAll(before, Mentioned(candidates, title, web)) ==
        InsertAll(mentions, Mentioned(candidates[i..], title, web))
    {
      assert candidates[i..][1..] == candidates[i + 1..];
      ghost var rest := Mentioned(candidates[i + 1..], title, web);
      var url := web.public(candidates[i]);
      ghost var own := if url.Some? then [Source(url.value, title)] else [];
      InsertConcat(mentions, own, rest);
      InsertOne(mentions, own);
      if url.Some? && |mentions| < SOURCE_LIMIT && url.value !in mentions {
        mentions := mentions[url.value := title];
      }
    }
  }

  /** The tree is within the limits, and nothing is found in an empty text. */
  ghost predicate IsFullyScanned(root: Json, web: Recogniser)
  {
    IsWithinLimits(root) && web.find("") == []
  }

  /** The variables of the scan loop. */
  datatype State = State(stack: seq<Frame>, nodes: nat, bytes: nat, explicit: Collection, mentions: Collection)

  /**
   * The loop invariant: the limits hold, the collections are what was found,
   * which is in the tree, and a full scan is on track.
   */
  ghost predicate Scanning(root: Json, st: State, found: seq<Source>, said: seq<Source>, web: Recogniser)
  {
    && st.explicit == InsertAll(map[], found) && st.mentions == InsertAll(map[], said)
    && |st.stack| + st.nodes <= SCAN_NODES && st.bytes <= SCAN_BYTES
    && Grounded(root, st.stack, found, said, web)
    && (IsFullyScanned(root, web) ==> Tracks(root, Progress(st.stack, st.nodes, st.bytes, found, said), web))
  }

  function ShapeOf(st: State): Shape
  {
    Shape(st.stack, st.nodes)
  }

  /** The frame on top can be visited. */
  predicate CanVisit(st: State)
  {
    st.stack != [] && st.nodes < SCAN_NODES && st.stack[|st.stack| - 1].depth <= SCAN_DEPTH
  }

  function Top(st: State): Frame
    requires st.stack != []
  {
    st.stack[|st.stack| - 1]
  }

  function Rest(st: State): seq<Frame>
    requires st.stack != []
  {
    st.stack[..|st.stack| - 1]
  }

  method StepObject(st: State, web: Recogniser, ghost root: Json, ghost found: seq<Source>, ghost said: seq<Source>)
    returns (next: State, ghost more: seq<Source>)
    requires CanVisit(st) && Top(st).value.Object? && Scanning(root, st, found, said, web)
    ensures Scanning(root, next, more, said, web) && next.nodes == st.nodes + 1 && ShapeOf(next) == Turn(ShapeOf(st))
  {
    hide Tracks; hide TitleOf; hide InsertAll; hide Walk; hide IsFullyScanned; hide OwnSources; hide PushFields;
    hide Grounded;
    var top, rest := Top(st), Rest(st);
    assert st.stack == rest + [top];
    var fields := top.value.fields;
    var title := TitleOf(fields, top.title);
    ghost var p := Progress(st.stack, st.nodes, st.bytes, found, said);
    var stack, explicit;
    ghost var k;
    stack, explicit, k := VisitObject(rest, st.nodes + 1, fields, title, top.depth + 1, st.explicit, web);
    InsertConcat(map[], found, OwnSources(fields[k..], title, web));
    more := found + OwnSources(fields[k..], title, web);
    next := State(stack, st.nodes + 1, st.bytes, explicit, st.mentions);
    GroundedObject(root, rest, top, k, found, said, web);
    if IsFullyScanned(root, web) {
      RoomForTop(root, p, top, rest, web);
      TracksObject(root, p, rest, fields, top.title, top.depth, web);
      assert fields[0..] == fields;
    }
  }

  method StepArray(st: State, web: Recogniser, ghost root: Json, ghost found: seq<Source>, ghost said: seq<Source>)
    returns (next: State)
    requires CanVisit(st) && Top(st).value.Array? && Scanning(root, st, found, said, web)
    ensures Scanning(root, next, found, said, web) && next.nodes == st.nodes + 1 && ShapeOf(next) == Turn(ShapeOf(st))
  {
    hide Tracks; hide InsertAll; hide Walk; hide IsFullyScanned; hide PushValues; hide Grounded;
    var top, rest := Top(st), Rest(st);
    assert st.stack == rest + [top];
    var values := top.value.values;
    var room := SCAN_NODES - (|rest| + st.nodes + 1);
    var skipped := Dropped(|values|, room);
    next := st.(stack := PushValues(rest, values[skipped..], top.title, top.depth + 1), nodes := st.nodes + 1);
    GroundedArray(root, rest, top, skipped, found, said, web);
    if IsFullyScanned(root, web) {
      ghost var p := Progress(st.stack, st.nodes, st.bytes, found, said);
      RoomForTop(root, p, top, rest, web);
      TracksArray(root, p, rest, values, top.title, top.depth, web);
      assert values[0..] == values;
    }
  }

  method StepText(st: State, web: Recogniser, ghost root: Json, ghost found: seq<Source>, ghost said: seq<Source>)
    returns (next: State, ghost more: seq<Source>)
    requires CanVisit(st) && Top(st).value.Str? && Scanning(root, st, found, said, web)
    ensures Scanning(root, next, found, more, web) && next.nodes == st.nodes + 1 && ShapeOf(next) == Turn(ShapeOf(st))
  {
    hide Tracks; hide InsertAll; hide Walk; hide IsFullyScanned; hide Mentioned; hide Measured; hide Grounded;
    var top, rest := Top(st), Rest(st);
    assert st.stack == rest + [top];
    var text := top.value.text;
    var bytes, mentions;
    ghost var scanned;
    bytes, mentions, scanned := VisitText(text, top.title, st.bytes, st.mentions, web);
    ghost var added := if st.bytes == SCAN_BYTES then [] else Mentioned(web.find(scanned), top.title, web);
    InsertConcat(map[], said, added);
    more := said + added;
    next := State(rest, st.nodes + 1, bytes, st.explicit, mentions);
    GroundedText(root, rest, top, scanned, found, said, web);
    GroundedRest(root, rest, top, found, said, web);
    assert said + [] == said;
    if IsFullyScanned(root, web) {
      ghost var p := Progress(st.stack, st.nodes, st.bytes, found, said);
      RoomForTop(root, p, top, rest, web);
      TracksLeaf(root, p, rest, top.value, top.title, top.depth, web);
      WholeText(text, scanned, st.bytes, top.title, web, root);
    }
  }

  lemma StepOther(st: State, web: Recogniser, root: Json, found: seq<Source>, said: seq<Source>)
    requires CanVisit(st) && Top(st).value.Other? && Scanning(root, st, found, said, web)
    ensures var next := st.(stack := Rest(st), nodes := st.nodes + 1);
      Scanning(root, next, found, said, web) && ShapeOf(next) == Turn(ShapeOf(st))
  {
    hide Tracks; hide InsertAll; hide Walk; hide IsFullyScanned; hide Measured; hide Grounded;
    var top, rest := Top(st), Rest(st);
    assert st.stack == rest + [top];
    GroundedRest(root, rest, top, found, said, web);
    if IsFullyScanned(root, web) {
      var p := Progress(st.stack, st.nodes, st.bytes, found, said);
      TracksLeaf(root, p, rest, top.value, top.title, top.depth, web);
      NothingInOther(top.title, web);
      assert said + [] == said;
    }
  }

  lemma StepDropped(st: State, web: Recogniser, root: Json, found: seq<Source>, said: seq<Source>)
    requires st.stack != [] && !CanVisit(st) && Scanning(root, st, found, said, web)
    ensures var next := st.(stack := Rest(st));
      Scanning(root, next, found, said, web) && ShapeOf(next) == Turn(ShapeOf(st))
  {
    hide Tracks; hide InsertAll; hide Walk; hide IsFullyScanned; hide Grounded;
    assert st.stack == Rest(st) + [Top(st)];
    GroundedRest(root, Rest(st), Top(st), found, said, web);
    if IsFullyScanned(root, web) {
      RoomForTop(root, Progress(st.stack, st.nodes, st.bytes, found, said), Top(st), Rest(st), web);
    }
  }

  /**
   * The scan loop. It always ends; in every turn of it (`trace` lists them)
   * the visited nodes and the stack together stay within the node limit. What
   * it finds is in the tree: the explicit references are those of the walk,
   * and the others are mentioned in a text of the tree or in a head of one;
   * within the limits it finds, in order, what the recursive walk finds.
   */
  method Scan(root: Json, web: Recogniser)
    returns (explicit: Collection, mentions: Collection,
             ghost found: seq<Source>, ghost said: seq<Source>, ghost trace: seq<Shape>)
    ensures explicit == InsertAll(map[], found) && mentions == InsertAll(map[], said)
    ensures |explicit| <= SOURCE_LIMIT && |mentions| <= SOURCE_LIMIT
    ensures AreTurns(root, trace) && trace[|trace| - 1].stack == []
    ensures forall s | s in found :: s in Walk(root, None, Explicit, web)
    ensures forall s | s in said :: IsMentioned(root, s, web)
    ensures IsFullyScanned(root, web) ==>
      && found == Walk(root, None, Explicit, web) && explicit == InsertAll(map[], Walk(root, None, Explicit, web))
      && said == Walk(root, None, Mention, web) && mentions == InsertAll(map[], Walk(root, None, Mention, web))
  {
    hide Tracks; hide InsertAll; hide Walk; hide IsFullyScanned; hide Turn; hide AreTurns; hide Grounded;
    found, said := [], [];
    GroundedStart(root, web);
    InsertNothing();
    var st := State([Frame(root, None, 1)], 0, 0, map[], map[]);
    trace := [ShapeOf(st)];
    FirstTurn(root);
    if IsFullyScanned(root, web) {
      ScannedStart(root, web);
    }
    while st.stack != []
      invariant Scanning(root, st, found, said, web)
      invariant AreTurns(root, trace) && trace != [] && trace[|trace| - 1] == ShapeOf(st)
      decreases SCAN_NODES - st.nodes, |st.stack|
    {
      if st.nodes >= SCAN_NODES || Top(st).depth > SCAN_DEPTH {
        StepDropped(st, web, root, found, said);
        st := st.(stack := Rest(st));
      } else {
        match Top(st).value {
          case Object(_) => st, found := StepObject(st, web, root, found, said);
          case Array(_) => st := StepArray(st, web, root, found, said);
          case Str(_) => st, said := StepText(st, web, root, found, said);
          case Other =>
            StepOther(st, web, root, found, said);
            st := st.(stack := Rest(st), nodes := st.nodes + 1);
        }
      }
      OneMoreTurn(root, trace, ShapeOf(st));
      trace := trace + [ShapeOf(st)];
    }
    if IsFullyScanned(root, web) {
      TracksEnd(root, Progress([], st.nodes, st.bytes, found, said), web);
    }
    explicit, mentions := st.explicit, st.mentions;
    GroundedEnd(root, found, said, web);
    LimitKept(map[], found);
    LimitKept(map[], said);
  }

  lemma GroundedEnd(root: Json, found: seq<Source>, said: seq<Source>, web: Recogniser)
    requires Grounded(root, [], found, said, web)
    ensures forall s | s in found :: s in Walk(root, None, Explicit, web)
    ensures forall s | s in said :: IsMentioned(root, s, web)
  {
  }

  lemma FirstTurn(root: Json)
    ensures AreTurns(root, [Shape([Frame(root, None, 1)], 0)])
  {
  }

  lemma InsertNothing()
    ensures InsertAll(map[], []) == map[]
  {
  }

  lemma ScannedStart(root: Json, web: Recogniser)
    requires IsFullyScanned(root, web)
    ensures Tracks(root, Progress([Frame(root, None, 1)], 0, 0, [], []), web)
  {
    TracksStart(root, web);
  }

  lemma TracksEnd(root: Json, p: Progress, web: Recogniser)
    requires Tracks(root, p, web) && p.stack == []
    ensures p.found == Walk(root, None, Explicit, web) && p.said == Walk(root, None, Mention, web)
  {
    hide Walk;
    assert p.found + [] == p.found && p.said + [] == p.said;
  }

  lemma NothingInOther(title: Title, web: Recogniser)
    ensures Walk(Other, title, Mention, web) == [] && Measured(Other).bytes == 0
  {
  }

  /**
   * Within the limits the top of the stack is never dropped, and there is room for
   * all its children and all its bytes.
   */
  lemma RoomForTop(root: Json, p: Progress, top: Frame, rest: seq<Frame>, web: Recogniser)
    requires IsFullyScanned(root, web) && Tracks(root, p, web) && p.stack == rest + [top]
    ensures p.nodes < SCAN_NODES && top.depth <= SCAN_DEPTH
    ensures top.value.Object? ==> |rest| + p.nodes + 1 + |top.value.fields| <= SCAN_NODES
    ensures top.value.Array? ==> |rest| + p.nodes + 1 + |top.value.values| <= SCAN_NODES
    ensures top.value.Str? ==> p.bytes + Utf8Length(top.value.text) <= SCAN_BYTES
  {
    hide WalkStack; hide Walk;
    assert p.stack[..|p.stack| - 1] == rest;
    StackIsNodes(rest);
    if top.value.Object? {
      FieldsAreNodes(top.value.fields);
    } else if top.value.Array? {
      ValuesAreNodes(top.value.values);
    }
  }

  lemma WholeText(text: string, scanned: string, was: nat, title: Title, web: Recogniser, root: Json)
    requires IsFullyScanned(root, web) && scanned == text && was + Utf8Length(text) <= SCAN_BYTES
    ensures Measured(Str(text)).bytes == Utf8Length(text)
    ensures (if was == SCAN_BYTES then [] else Mentioned(web.find(scanned), title, web)) ==
      Walk(Str(text), title, Mention, web)
  {
    if was == SCAN_BYTES {
      NoBytes(text);
    }
  }

  // ---- full scans ----

  /** The first title of every URL, without a limit. */
  function FirstTitles(sources: seq<Source>): (m: Collection)
    ensures m.Keys == Urls(sources)
  {
    if sources == [] then map[]
    else
      var last := sources[|sources| - 1];
      var earlier := FirstTitles(sources[..|sources| - 1]);
      assert sources == sources[..|sources| - 1] + [last];
      if last.url in earlier then earlier else earlier[last.url := last.title]
  }

  function Urls(sources: seq<Source>): set<string>
  {
    set s | s in sources :: s.url
  }

  /** With at most as many URLs as the collection holds, the limit does not show. */
  lemma {:induction false} LimitNotReached(sources: seq<Source>)
    requires |Urls(sources)| <= SOURCE_LIMIT
    ensures InsertAll(map[], sources) == FirstTitles(sources)
  {
    if sources != [] {
      var front, last := sources[..|sources| - 1], sources[|sources| - 1];
      assert sources == front + [last];
      assert Urls(sources) == Urls(front) + {last.url};
      var m := FirstTitles(front);
      if last.url in Urls(front) {
        assert Urls(sources) == Urls(front);
      } else {
        assert |Urls(sources)| == |Urls(front)| + 1;
      }
      LimitNotReached(front);
      InsertConcat(map[], front, [last]);
      InsertOne(m, [last]);
      assert |m| == |m.Keys|;
    }
  }

  lemma {:induction false} LimitKept(m: Collection, sources: seq<Source>)
    requires |m| <= SOURCE_LIMIT
    ensures |InsertAll(m, sources)| <= SOURCE_LIMIT
    decreases |sources|
  {
    if sources != [] {
      LimitKept(Insert(m, sources[0]), sources[1..]);
    }
  }

  // ---- the result ----

  /** The keys of a collection in the order in which it is iterated. */
  ghost predicate IsOrderOf(order: seq<string>, m: Collection)
  {
    NoDuplicates(order) && forall k :: k in order <==> k in m
  }

  /** A URL with its explicit title, or else with the one it has in text. */
  function SourceOf(url: string, explicit: Collection, mentions: Collection): Source
  {
    Source(url, if url in explicit then explicit[url] else if url in mentions then mentions[url] else None)
  }

  function SourcesOf(urls: seq<string>, explicit: Collection, mentions: Collection): (sources: seq<Source>)
    ensures |sources| == |urls|
    ensures forall i | 0 <= i < |urls| :: sources[i] == SourceOf(urls[i], explicit, mentions)
  {
    if urls == [] then [] else [SourceOf(urls[0], explicit, mentions)] + SourcesOf(urls[1..], explicit, mentions)
  }

  /** Those URLs of an order that are not explicit. */
  function NotExplicit(order: seq<string>, explicit: Collection): (urls: seq<string>)
    ensures forall url :: url in urls <==> url in order && url !in explicit
  {
    if order == [] then []
    else
      var last := order[|order| - 1];
      assert order == order[..|order| - 1] + [last];
      NotExplicit(order[..|order| - 1], explicit) + if last in explicit then [] else [last]
  }

  /** The URLs of the first `i` steps through both orders, each once. */
  function Seen(first: seq<string>, second: seq<string>, explicit: Collection, i: nat): seq<string>
    requires i <= |first| + |second|
  {
    if i <= |first| then first[..i] else first + NotExplicit(second[..i - |first|], explicit)
  }

  lemma NotExplicitSnoc(order: seq<string>, url: string, explicit: Collection)
    ensures NotExplicit(order + [url], explicit) == NotExplicit(order, explicit) + if url in explicit then [] else [url]
  {
    var all := order + [url];
    assert all[..|all| - 1] == order;
  }

  lemma SeenFirst(first: seq<string>, second: seq<string>, explicit: Collection, i: nat)
    requires IsOrderOf(first, explicit) && i < |first|
    ensures var url, seen := (first + second)[i], Seen(first, second, explicit, i);
      url in explicit && url !in seen && Seen(first, second, explicit, i + 1) == seen + [url]
  {
    assert first[..i + 1] == first[..i] + [first[i]] && first[i] in first;
  }

  lemma SeenSecond(first: seq<string>, second: seq<string>, explicit: Collection, mentions: Collection, j: nat)
    requires IsOrderOf(first, explicit) && IsOrderOf(second, mentions) && j < |second|
    ensures var url, seen := second[j], Seen(first, second, explicit, |first| + j);
      && url in mentions && (url in seen <==> url in explicit)
      && Seen(first, second, explicit, |first| + j + 1) == if url in seen then seen else seen + [url]
  {
    hide NotExplicit;
    var url, before := second[j], second[..j];
    assert url in second && second[..j + 1] == before + [url];
    assert url !in before;
    NotExplicitSnoc(before, url, explicit);
    SeenEnds(first, before, explicit);
    assert before[..j] == before && first + before[..0] == first;
    assert Seen(first, second, explicit, |first| + j) == first + NotExplicit(before, explicit) by {
      NothingLeft(explicit);
      assert j == 0 ==> before == [] && first[..|first|] == first + [];
    }
    ConcatAssociates(first, NotExplicit(before, explicit), [url]);
    assert url in explicit <==> url in first;
    assert NotExplicit(before, explicit) + [] == NotExplicit(before, explicit);
  }

  lemma NothingLeft(explicit: Collection)
    ensures NotExplicit([], explicit) == []
  {
  }

  lemma SeenStep(first: seq<string>, second: seq<string>, explicit: Collection, mentions: Collection, i: nat)
    requires IsOrderOf(first, explicit) && IsOrderOf(second, mentions) && i < |first| + |second|
    ensures var url, seen := (first + second)[i], Seen(first, second, explicit, i);
      && (i < |first| ==> url in explicit) && (i >= |first| ==> url in mentions && (url in seen <==> url in explicit))
      && (url in seen ==> i >= |first|)
      && Seen(first, second, explicit, i + 1) == if url in seen then seen else seen + [url]
  {
    hide Seen; hide IsOrderOf;
    if i < |first| {
      SeenFirst(first, second, explicit, i);
    } else {
      SeenSecond(first, second, explicit, mentions, i - |first|);
    }
  }

  lemma {:induction false} SeenGrows(
    first: seq<string>, second: seq<string>, explicit: Collection, mentions: Collection, i: nat, end: nat)
    requires IsOrderOf(first, explicit) && IsOrderOf(second, mentions) && i <= end <= |first| + |second|
    ensures Seen(first, second, explicit, i) <= Seen(first, second, explicit, end)
    decreases end - i
  {
    hide Seen; hide IsOrderOf;
    if i < end {
      SeenStep(first, second, explicit, mentions, i);
      SeenGrows(first, second, explicit, mentions, i + 1, end);
    }
  }

  /** The first so many elements. */
  function Take<T>(xs: seq<T>, n: nat): seq<T>
  {
    if |xs| <= n then xs else xs[..n]
  }

  /**
   * The references of a tool result, given the iteration orders of the two
   * collections: the explicit ones, then those in text that are not explicit,
   * each in its order, with its title, cut off at the limit.
   */
  function Report(
    explicit: Collection, mentions: Collection, explicitOrder: seq<string>, mentionOrder: seq<string>): seq<Source>
  {
    Take(SourcesOf(explicitOrder + NotExplicit(mentionOrder, explicit), explicit, mentions), SOURCE_LIMIT)
  }

  method Merge(explicit: Collection, mentions: Collection, explicitOrder: seq<string>, mentionOrder: seq<string>)
    returns (sources: seq<Source>)
    requires IsOrderOf(explicitOrder, explicit) && IsOrderOf(mentionOrder, mentions)
    ensures sources == Report(explicit, mentions, explicitOrder, mentionOrder)
  {
    hide IsOrderOf; hide Seen; hide NotExplicit; hide SourcesOf; hide Take;
    sources := [];
    NoSources(explicit, mentions);
    var seen: set<string> := {};
    var order := explicitOrder + mentionOrder;
    ghost var urls: seq<string> := [];
    SeenEnds(explicitOrder, mentionOrder, explicit);
    var i := 0;
    while i < |order| && |sources| < SOURCE_LIMIT
      invariant 0 <= i <= |order| && |sources| <= SOURCE_LIMIT
      invariant urls == Seen(explicitOrder, mentionOrder, explicit, i) && (forall url :: url in seen <==> url in urls)
      invariant sources == SourcesOf(urls, explicit, mentions)
    {
      var url := order[i];
      SeenStep(explicitOrder, mentionOrder, explicit, mentions, i);
      if url !in seen {
        var title := if i < |explicitOrder| then explicit[url] else mentions[url];
        SourcesSnoc(urls, url, explicit, mentions);
        sources := sources + [Source(url, title)];
        seen := seen + {url};
        urls := urls + [url];
      }
      i := i + 1;
    }
    SeenGrows(explicitOrder, mentionOrder, explicit, mentions, i, |order|);
    SourcesPrefix(urls, explicitOrder + NotExplicit(mentionOrder, explicit), explicit, mentions);
  }

  lemma SeenEnds(first: seq<string>, second: seq<string>, explicit: Collection)
    ensures Seen(first, second, explicit, 0) == []
    ensures Seen(first, second, explicit, |first| + |second|) == first + NotExplicit(second, explicit)
  {
    assert second[..|second|] == second;
    assert second == [] ==> first[..|first|] == first + NotExplicit(second, explicit);
  }

  lemma NoSources(explicit: Collection, mentions: Collection)
    ensures SourcesOf([], explicit, mentions) == []
  {
  }

  lemma SourcesSnoc(urls: seq<string>, url: string, explicit: Collection, mentions: Collection)
    ensures SourcesOf(urls + [url], explicit, mentions) ==
      SourcesOf(urls, explicit, mentions) + [SourceOf(url, explicit, mentions)]
  {
  }

  lemma SourcesPrefix(urls: seq<string>, all: seq<string>, explicit: Collection, mentions: Collection)
    requires urls <= all && |urls| <= SOURCE_LIMIT && (|urls| < SOURCE_LIMIT ==> urls == all)
    ensures SourcesOf(urls, explicit, mentions) == Take(SourcesOf(all, explicit, mentions), SOURCE_LIMIT)
  {
    var taken := Take(SourcesOf(all, explicit, mentions), SOURCE_LIMIT);
    assert |taken| == |urls|;
  }

  predicate AreDistinct(sources: seq<Source>)
  {
    forall i, j | 0 <= i < j < |sources| :: sources[i].url != sources[j].url
  }

  lemma {:induction false} NotExplicitDiffer(order: seq<string>, explicit: Collection)
    requires NoDuplicates(order)
    ensures NoDuplicates(NotExplicit(order, explicit))
  {
    if order != [] {
      var front, last := order[..|order| - 1], order[|order| - 1];
      NotExplicitDiffer(front, explicit);
      assert last !in front;
    }
  }

  /** A report has at most as many references as the limit, and no URL twice. */
  lemma ReportIsBounded(
    explicit: Collection, mentions: Collection, explicitOrder: seq<string>, mentionOrder: seq<string>)
    requires IsOrderOf(explicitOrder, explicit) && IsOrderOf(mentionOrder, mentions)
    ensures var sources := Report(explicit, mentions, explicitOrder, mentionOrder);
      |sources| <= SOURCE_LIMIT && AreDistinct(sources)
  {
    var others := NotExplicit(mentionOrder, explicit);
    NotExplicitDiffer(mentionOrder, explicit);
    var urls := explicitOrder + others;
    forall i, j | 0 <= i < j < |urls|
      ensures urls[i] != urls[j]
    {
      if i < |explicitOrder| <= j {
        assert urls[i] in explicitOrder && urls[j] in others;
      }
    }
  }
}
