/** Where a reference comes from: the nodes of a tree, each with the title that reaches it. */
module SourcesOrigin {
  import opened Common
  import opened Sources

  datatype Node = Node(value: Json, title: Title)

  function Nodes(v: Json, title: Title): seq<Node>
    decreases v
  {
    [Node(v, title)] +
    match v
    case Object(fields) => NodesOfFields(fields, TitleOf(fields, title))
    case Array(values) => NodesOfValues(values, title)
    case _ => []
  }

  function NodesOfFields(fields: seq<Field>, title: Title): seq<Node>
    decreases fields
  {
    if fields == [] then [] else Nodes(fields[0].value, title) + NodesOfFields(fields[1..], title)
  }

  function NodesOfValues(values: seq<Json>, title: Title): seq<Node>
    decreases values
  {
    if values == [] then [] else Nodes(values[0], title) + NodesOfValues(values[1..], title)
  }

  /** A text of the tree, or a head of one, mentions the reference. */
  ghost predicate IsMentioned(root: Json, s: Source, web: Recogniser)
  {
    exists n, head :: n in Nodes(root, None) && IsHeadOf(head, n) && s in Mentioned(web.find(head), n.title, web)
  }

  predicate IsHeadOf(head: string, n: Node)
  {
    n.value.Str? && head <= n.value.text
  }

  // ---- a node of a node is a node ----

  lemma {:induction false} NodesBelow(v: Json, title: Title, n: Node, m: Node)
    requires n in Nodes(v, title) && m in Nodes(n.value, n.title)
    ensures m in Nodes(v, title)
    decreases v
  {
    hide TitleOf;
    if n != Node(v, title) {
      match v {
        case Object(fields) => NodesBelowFields(fields, TitleOf(fields, title), n, m);
        case Array(values) => NodesBelowValues(values, title, n, m);
        case _ =>
      }
    }
  }

  lemma {:induction false} NodesBelowFields(fields: seq<Field>, title: Title, n: Node, m: Node)
    requires n in NodesOfFields(fields, title) && m in Nodes(n.value, n.title)
    ensures m in NodesOfFields(fields, title)
    decreases fields
  {
    hide Nodes;
    if n in Nodes(fields[0].value, title) {
      NodesBelow(fields[0].value, title, n, m);
    } else {
      NodesBelowFields(fields[1..], title, n, m);
    }
  }

  lemma {:induction false} NodesBelowValues(values: seq<Json>, title: Title, n: Node, m: Node)
    requires n in NodesOfValues(values, title) && m in Nodes(n.value, n.title)
    ensures m in NodesOfValues(values, title)
    decreases values
  {
    hide Nodes;
    if n in Nodes(values[0], title) {
      NodesBelow(values[0], title, n, m);
    } else {
      NodesBelowValues(values[1..], title, n, m);
    }
  }

  lemma {:induction false} FieldIsNode(fields: seq<Field>, title: Title, i: nat)
    requires i < |fields|
    ensures Node(fields[i].value, title) in NodesOfFields(fields, title)
    decreases i
  {
    if i > 0 {
      FieldIsNode(fields[1..], title, i - 1);
    }
  }

  lemma {:induction false} ValueIsNode(values: seq<Json>, title: Title, i: nat)
    requires i < |values|
    ensures Node(values[i], title) in NodesOfValues(values, title)
    decreases i
  {
    if i > 0 {
      ValueIsNode(values[1..], title, i - 1);
    }
  }

  // ---- what is found at a node is found in the tree ----

  lemma {:induction false} WalkBelow(v: Json, title: Title, n: Node, s: Source, kind: Kind, web: Recogniser)
    requires n in Nodes(v, title) && s in Walk(n.value, n.title, kind, web)
    ensures s in Walk(v, title, kind, web)
    decreases v
  {
    hide TitleOf; hide OwnSources;
    if n != Node(v, title) {
      match v {
        case Object(fields) => WalkBelowFields(fields, TitleOf(fields, title), n, s, kind, web);
        case Array(values) => WalkBelowValues(values, title, n, s, kind, web);
        case _ =>
      }
    }
  }

  lemma {:induction false} WalkBelowFields(
    fields: seq<Field>, title: Title, n: Node, s: Source, kind: Kind, web: Recogniser)
    requires n in NodesOfFields(fields, title) && s in Walk(n.value, n.title, kind, web)
    ensures s in WalkFields(fields, title, kind, web)
    decreases fields
  {
    hide Nodes; hide Walk;
    if n in Nodes(fields[0].value, title) {
      WalkBelow(fields[0].value, title, n, s, kind, web);
    } else {
      WalkBelowFields(fields[1..], title, n, s, kind, web);
    }
  }

  lemma {:induction false} WalkBelowValues(
    values: seq<Json>, title: Title, n: Node, s: Source, kind: Kind, web: Recogniser)
    requires n in NodesOfValues(values, title) && s in Walk(n.value, n.title, kind, web)
    ensures s in WalkValues(values, title, kind, web)
    decreases values
  {
    hide Nodes; hide Walk;
    if n in Nodes(values[0], title) {
      WalkBelow(values[0], title, n, s, kind, web);
    } else {
      WalkBelowValues(values[1..], title, n, s, kind, web);
    }
  }

  /** The references of the last fields are references of the object. */
  lemma {:induction false} OwnSourcesOfLast(fields: seq<Field>, k: nat, title: Title, web: Recogniser)
    requires k <= |fields|
    ensures forall s | s in OwnSources(fields[k..], title, web) :: s in OwnSources(fields, title, web)
    decreases k
  {
    if k == 0 {
      assert fields[0..] == fields;
    } else {
      OwnSourcesOfLast(fields[1..], k - 1, title, web);
      assert fields[1..][k - 1..] == fields[k..];
    }
  }
}
