/**
 * The scan takes the explicit references of an object from its last field to
 * its first. Because they share one title, its collection is that of a plain
 * preorder walk.
 */
module SourcesOrder {
  import opened Common
  import opened Sources
  import opened SourcesOrigin
  import opened SourcesScan

  /** The explicit references of an object in the order of its fields. */
  function FieldSources(fields: seq<Field>, title: Title, web: Recogniser): seq<Source>
  {
    if fields == [] then [] else OwnSource(fields[0], title, web) + FieldSources(fields[1..], title, web)
  }

  /** All references of one kind: an object's own ones, then those of its fields, in their order. */
  function Preorder(v: Json, title: Title, kind: Kind, web: Recogniser): seq<Source>
    decreases v
  {
    match v
    case Object(fields) =>
      (if kind.Explicit? then FieldSources(fields, TitleOf(fields, title), web) else [])
      + PreorderFields(fields, TitleOf(fields, title), kind, web)
    case Array(values) => PreorderValues(values, title, kind, web)
    case Str(text) => if kind.Mention? then Mentioned(web.find(text), title, web) else []
    case Other => []
  }

  function PreorderFields(fields: seq<Field>, title: Title, kind: Kind, web: Recogniser): seq<Source>
    decreases fields
  {
    if fields == [] then []
    else Preorder(fields[0].value, title, kind, web) + PreorderFields(fields[1..], title, kind, web)
  }

  function PreorderValues(values: seq<Json>, title: Title, kind: Kind, web: Recogniser): seq<Source>
    decreases values
  {
    if values == [] then []
    else Preorder(values[0], title, kind, web) + PreorderValues(values[1..], title, kind, web)
  }

  function AddFirst(m: Collection, s: Source): Collection
  {
    if s.url in m then m else m[s.url := s.title]
  }

  lemma FirstTitlesSnoc(sources: seq<Source>, last: Source)
    ensures FirstTitles(sources + [last]) == AddFirst(FirstTitles(sources), last)
  {
    var all := sources + [last];
    assert all[..|all| - 1] == sources;
  }

  lemma AddUnder(first: Collection, m: Collection, s: Source)
    ensures AddFirst(m + first, s) == AddFirst(m, s) + first
  {
  }

  /** First titles of a concatenation: those of the first part win. */
  lemma {:induction false} FirstTitlesConcat(a: seq<Source>, b: seq<Source>)
    ensures FirstTitles(a + b) == FirstTitles(b) + FirstTitles(a)
    decreases |b|
  {
    hide FirstTitles; hide AddFirst;
    if b == [] {
      assert a + b == a;
      NoTitles();
    } else {
      var front, last := b[..|b| - 1], b[|b| - 1];
      assert b == front + [last];
      ConcatAssociates(a, front, [last]);
      FirstTitlesConcat(a, front);
      FirstTitlesSnoc(a + front, last);
      FirstTitlesSnoc(front, last);
      AddUnder(FirstTitles(a), FirstTitles(front), last);
    }
  }

  ghost predicate HasOneTitle(m: Collection, title: Title)
  {
    forall url | url in m :: m[url] == title
  }

  lemma OwnTitle(field: Field, title: Title, web: Recogniser)
    ensures HasOneTitle(FirstTitles(OwnSource(field, title, web)), title)
  {
    var own := OwnSource(field, title, web);
    if own != [] {
      assert own[..0] == [];
    }
  }

  /** The order in which an object's own references are met does not matter. */
  lemma {:induction false} OwnOrder(fields: seq<Field>, title: Title, web: Recogniser)
    ensures FirstTitles(OwnSources(fields, title, web)) == FirstTitles(FieldSources(fields, title, web))
    ensures HasOneTitle(FirstTitles(FieldSources(fields, title, web)), title)
  {
    hide FirstTitles; hide OwnSource;
    if fields == [] {
      NoTitles();
    } else {
      var own := OwnSource(fields[0], title, web);
      OwnTitle(fields[0], title, web);
      OwnOrder(fields[1..], title, web);
      FirstTitlesConcat(OwnSources(fields[1..], title, web), own);
      FirstTitlesConcat(own, FieldSources(fields[1..], title, web));
    }
  }

  lemma NoTitles()
    ensures FirstTitles([]) == map[]
  {
  }

  lemma SameParts(a: seq<Source>, b: seq<Source>, c: seq<Source>, d: seq<Source>)
    requires FirstTitles(a) == FirstTitles(c) && FirstTitles(b) == FirstTitles(d)
    ensures FirstTitles(a + b) == FirstTitles(c + d)
  {
    FirstTitlesConcat(a, b);
    FirstTitlesConcat(c, d);
  }

  /** The walk of the scan and the plain preorder walk give every URL the same first title. */
  lemma {:induction false} WalkIsPreorder(v: Json, title: Title, kind: Kind, web: Recogniser)
    ensures FirstTitles(Walk(v, title, kind, web)) == FirstTitles(Preorder(v, title, kind, web))
    decreases v
  {
    hide FirstTitles; hide TitleOf; hide OwnSources; hide FieldSources;
    match v {
      case Object(fields) =>
        var own := TitleOf(fields, title);
        FieldsArePreorder(fields, own, kind, web);
        OwnOrder(fields, own, web);
        SameParts(if kind.Explicit? then OwnSources(fields, own, web) else [], WalkFields(fields, own, kind, web),
                  if kind.Explicit? then FieldSources(fields, own, web)
                    else [], PreorderFields(fields, own, kind, web));
      case Array(values) => ValuesArePreorder(values, title, kind, web);
      case Str(_) =>
      case Other =>
    }
  }

  lemma {:induction false} FieldsArePreorder(fields: seq<Field>, title: Title, kind: Kind, web: Recogniser)
    ensures FirstTitles(WalkFields(fields, title, kind, web)) == FirstTitles(PreorderFields(fields, title, kind, web))
    decreases fields
  {
    hide FirstTitles; hide Walk; hide Preorder;
    if fields != [] {
      WalkIsPreorder(fields[0].value, title, kind, web);
      FieldsArePreorder(fields[1..], title, kind, web);
      SameParts(Walk(fields[0].value, title, kind, web), WalkFields(fields[1..], title, kind, web),
                Preorder(fields[0].value, title, kind, web), PreorderFields(fields[1..], title, kind, web));
    }
  }

  lemma {:induction false} ValuesArePreorder(values: seq<Json>, title: Title, kind: Kind, web: Recogniser)
    ensures FirstTitles(WalkValues(values, title, kind, web)) == FirstTitles(PreorderValues(values, title, kind, web))
    decreases values
  {
    hide FirstTitles; hide Walk; hide Preorder;
    if values != [] {
      WalkIsPreorder(values[0], title, kind, web);
      ValuesArePreorder(values[1..], title, kind, web);
      SameParts(Walk(values[0], title, kind, web), WalkValues(values[1..], title, kind, web),
                Preorder(values[0], title, kind, web), PreorderValues(values[1..], title, kind, web));
    }
  }

  lemma {:induction false} OwnMembers(fields: seq<Field>, title: Title, s: Source, web: Recogniser)
    ensures s in OwnSources(fields, title, web) <==> s in FieldSources(fields, title, web)
  {
    hide OwnSource;
    if fields != [] {
      OwnMembers(fields[1..], title, s, web);
    }
  }

  /** Both walks find the same references. */
  lemma {:induction false} SameMembers(v: Json, title: Title, kind: Kind, s: Source, web: Recogniser)
    ensures s in Walk(v, title, kind, web) <==> s in Preorder(v, title, kind, web)
    decreases v
  {
    hide TitleOf; hide OwnSources; hide FieldSources;
    match v {
      case Object(fields) =>
        OwnMembers(fields, TitleOf(fields, title), s, web);
        SameMembersOfFields(fields, TitleOf(fields, title), kind, s, web);
      case Array(values) => SameMembersOfValues(values, title, kind, s, web);
      case Str(_) =>
      case Other =>
    }
  }

  lemma {:induction false} SameMembersOfFields(
    fields: seq<Field>, title: Title, kind: Kind, s: Source, web: Recogniser)
    ensures s in WalkFields(fields, title, kind, web) <==> s in PreorderFields(fields, title, kind, web)
    decreases fields
  {
    hide Walk; hide Preorder;
    if fields != [] {
      SameMembers(fields[0].value, title, kind, s, web);
      SameMembersOfFields(fields[1..], title, kind, s, web);
    }
  }

  lemma {:induction false} SameMembersOfValues(
    values: seq<Json>, title: Title, kind: Kind, s: Source, web: Recogniser)
    ensures s in WalkValues(values, title, kind, web) <==> s in PreorderValues(values, title, kind, web)
    decreases values
  {
    hide Walk; hide Preorder;
    if values != [] {
      SameMembers(values[0], title, kind, s, web);
      SameMembersOfValues(values[1..], title, kind, s, web);
    }
  }

  /** A reported reference was found, in a field or in a text, with its title. */
  lemma ReportedWasFound(
    found: seq<Source>, said: seq<Source>, explicitOrder: seq<string>, mentionOrder: seq<string>, s: Source)
    requires var explicit, mentions := InsertAll(map[], found), InsertAll(map[], said);
      && IsOrderOf(explicitOrder, explicit) && IsOrderOf(mentionOrder, mentions)
      && s in Report(explicit, mentions, explicitOrder, mentionOrder)
    ensures s in found || s in said
  {
    hide InsertAll;
    var explicit, mentions := InsertAll(map[], found), InsertAll(map[], said);
    var urls := explicitOrder + NotExplicit(mentionOrder, explicit);
    var i :| 0 <= i < |urls| && s == SourceOf(urls[i], explicit, mentions);
    assert urls[i] in explicitOrder || urls[i] in NotExplicit(mentionOrder, explicit);
    if urls[i] in explicit {
      InsertedFrom(map[], found, urls[i]);
    } else {
      InsertedFrom(map[], said, urls[i]);
    }
  }

  /**
   * The references of a tool result. For every tree there are at most as many
   * as the limit, and no URL twice; each one is in the tree with its title, in
   * a URL field or in a text or a head of a text. For a tree within the limits they are the
   * report of the preorder walk: the explicit references, then the others,
   * each with its first title.
   */
  method ToolCallSources(value: Json, web: Recogniser, order: Collection -> seq<string>) returns (sources: seq<Source>)
    requires forall m: Collection :: IsOrderOf(order(m), m)
    ensures |sources| <= SOURCE_LIMIT && AreDistinct(sources)
    ensures forall s | s in sources :: s in Preorder(value, None, Explicit, web) || IsMentioned(value, s, web)
    ensures
      var found, said := Preorder(value, None, Explicit, web), Preorder(value, None, Mention, web);
      var explicit, mentions := FirstTitles(found), FirstTitles(said);
      IsFullyScanned(value, web) && |Urls(found)| <= SOURCE_LIMIT && |Urls(said)| <= SOURCE_LIMIT ==>
        sources == Report(explicit, mentions, order(explicit), order(mentions))
  {
    hide Walk; hide Preorder; hide InsertAll; hide FirstTitles; hide IsFullyScanned; hide IsOrderOf;
    hide Urls; hide Report; hide IsMentioned;
    var explicit, mentions, found, said, _ := Scan(value, web);
    sources := Merge(explicit, mentions, order(explicit), order(mentions));
    ReportIsBounded(explicit, mentions, order(explicit), order(mentions));
    forall s | s in sources
      ensures s in Preorder(value, None, Explicit, web) || IsMentioned(value, s, web)
    {
      ReportedWasFound(found, said, order(explicit), order(mentions), s);
      SameMembers(value, None, Explicit, s, web);
    }
    if IsFullyScanned(value, web) {
      WalkIsPreorder(value, None, Explicit, web);
      WalkIsPreorder(value, None, Mention, web);
      if |Urls(found)| <= SOURCE_LIMIT && |Urls(said)| <= SOURCE_LIMIT {
        LimitNotReached(found);
        LimitNotReached(said);
      }
    }
  }
}
